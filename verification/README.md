# A Dafny model of a media pipeline daemon

The daemon runs pipelines on a schedule. A pipeline is a graph of plugins:
sources emit entries, processors filter and enrich them, sinks act on them.
This project models the parts of it with the most state and branching, and
proves what they promise. `dafny verify dfyconfig.toml` checks the whole
project.

## How it is laid out

**A pipeline run against its validator.** `Graph`, `Layers` and `Ordering` are
the graph and its analyses. `Entries`, `Plugins`, `Merging`, `NodeTurn`,
`Ledger`, `Executor`, `Run` and `Aggregate` are the executor over shared, mutable
entries: plugins are nondeterministic within a contract (they may change the
entries they are handed in any way but the URL, return any of them, add new
ones, or panic), so what is proved holds for every plugin. `Dataflow` says what
a run would compute if no entry were ever shared, and the executor is proved to
compute that. `StateCert`, `FieldFlow`, `Validate` and `NodeFields` are the
static field analysis; `CertMeaning` and `Conditions` say what its values mean
and which of its updates are right; `Soundness` and `SilentRun` join the two
halves: a silent validator means that plugins get the fields they require;
`AcceptAll` is a graph outside its conditions. `Exactness` and `FieldPaths` show
the other direction: what is claimed is all that could be, and what is lost on a
path is warned about. `FilterPlugins` holds the three plugins the validator
knows by name. `Narrowing` is what conditions allow to be inferred.

**Running on time.** `Calendar`, `Cron`, `CronParse` and `CronRecurrence` are
the five-field schedules, over UTC and the proleptic Gregorian calendar, with
the rule of IEEE Std 1003.1 (crontab, INPUT FILES) that a restricted day of the
month and a restricted day of the week match independently. `Daemon` is the
scheduler as a protocol of atomic steps, with the goroutines, the mutex, the
WaitGroup and the trigger channel. `After` is pipelines that follow others.

**Self-contained algorithms.** `Bencode`, `BencodePanics` (when the decoder
panics), `BencodeRoundTrip` and `BencodeGrammar` (BEP 3), `EditDistance` and
`Candidates` (why a title does not match), `RotatingLog` and `PipelineState`
(moving the records kept under a pipeline's name). `Strconv` has the integer
conversions they share.

The classes hold the fields the Go code updates, and each of their methods is
proved against functions of the old state. Ghost fields are history and decide
nothing. Sets stand for Go's bitsets and maps to bool, and a loop over a Go map
takes its keys in an arbitrary order.

## Where the code does not do what one might expect

- Cron: Next gives up after 1460 days. Started on 29 February, it misses an
  expression that only matches such days (`CronRecurrence.NextAlwaysFinds`).
- Cron: a step near the largest int makes the parser's loop variable wrap and
  the marking panic (`CronParse.ParsePart`).
- Bencode: an `info` key nested in an earlier value, or inside the info dict,
  is hashed in place of the info dict (`BencodeRoundTrip.TorrentHash`), and a
  string length that is negative, or so large that the string's end wraps
  around, panics (`BencodePanics.DecodePanicIff`, `BencodePanics.NegativeLength`,
  `BencodePanics.HugeLength`).
- Layers reports a cycle for a graph with a repeated upstream, though it has
  none (`Layers.Layers`).
- The validator panics when the only upstream of a node that sets fields has an
  unknown plugin: the copied zero value has no buckets (`Validate.Validate`).
- A classifier or an accept rule over an Accepted bucket that is already
  populated can claim too much; `CertMeaning.ClassifySoundIff` and
  `CertMeaning.AcceptSoundIff` say exactly when.
- A plugin that accepts entries and declares no Produces leaves Accepted
  unpopulated, so a merge with a classifier claims the classifier's fields of
  its entries (`AcceptAll.AcceptAllEscapes`, `CertMeaning.UntrackedSoundIff`).
- The validator takes a require node's first field out of what is certain of
  entries it rejects, and no other: an entry rejected for want of the second can
  still count as having it (`FieldPaths.SecondStaysClaimed`; exactly when,
  `FieldPaths.RejectedRightIff`). For a reject rule, taking out the first field
  never changes anything (`Exactness.AbsentIdle`).
- A condition's reject rule is taken to have been asked of entries an earlier
  rule accepted (`Conditions.AcceptedBeforeRejected`; exactly when that is
  wrong, `Conditions.RulesSoundIff`).
- The comment on route ports says that the Rejected bucket is left untouched;
  it is marked populated (`FieldFlow.PortMarksRejected`).
- Certain fields are documented as a subset of the reachable ones. Taking a
  field out of reach leaves it certain of rejected and failed entries
  (`NodeFields.ShownUnreachable`, `NodeFields.KeepsReachableIff`).
- An entry handed to swap_state twice in one call is flipped back
  (`FilterPlugins.SwapTwice`).
- Narrowing takes `!=`, `<` and `<=` to mean that the field is set, and a false
  `== 0` too; all four can hold of a missing field
  (`Narrowing.FittingComparisons`, `Narrowing.ZeroPromotedMissing`). It takes a
  false `> 0` to mean that the field is unset, though it may be negative
  (`Narrowing.RemovedUnsetIff`).
- When closing the full log file fails, its handle stays, and no write succeeds
  until the writer is closed (`RotatingLog.Writer.Write`).
- Move's comment says that once anything is written only the store's own errors
  are left. A seen record that is not a JSON object is only found out when it
  is retagged, half-way (`PipelineState.Store.Move`).

## Model

| member | source | states |
|---|---|---|
| `EditDistance.DistIsMinimum` | internal/match/probe.go:134-159 | The distance is the least number of insertions, deletions and substitutions that turns one title into the other: a chain of that many single edits exists, and no shorter one does |
| `EditDistance.DistIsMetric` | internal/match/probe.go:134-159 | Zero only between equal titles, the same in both directions, and never longer than going through a third title |
| `EditDistance.Levenshtein` | internal/match/probe.go:134-159 | The two rolling rows compute that distance for every pair of titles |
| `Candidates.SortCandidates` | internal/match/probe.go:84-103 | Matches first, then nearest, then by title, and candidates that tie at all three stay in list order |
| `Candidates.RankingUnique` | internal/match/probe.go:84-103 | That pins the order down: no other arrangement is ranked and keeps ties as they were |
| `Candidates.Probe` | internal/match/probe.go:56-82 | The title matches if some list entry does, by the first that does; every entry is ranked, with whether its title and its year match, its edit distance, and whether only punctuation differs |
| `Candidates.NearestLeads` | internal/match/probe.go:49-51 | What is shown first is a match if there is one; no entry of its kind is nearer, nor as near with a lesser title |
| `Bencode.Decoder.Decode` | internal/bencode/bencode.go:148-164 | The cursor, the value and the remembered info bytes after any input are those of the decoding relation, including every error and the panic |
| `Bencode.Decoder.DecodeInt` | internal/bencode/bencode.go:166-184 | An integer up to its `e`, read at 64 bits |
| `Bencode.Decoder.DecodeBytes` | internal/bencode/bencode.go:186-210 | A length-prefixed string; a length past the end is an error, a negative one a panic, with the end offset wrapping at 64 bits |
| `Bencode.Decoder.DecodeList` | internal/bencode/bencode.go:212-227 | Items in order up to the closing `e` |
| `Bencode.Decoder.DecodeDict` | internal/bencode/bencode.go:229-256 | Pairs up to the closing `e`, the last value of a repeated key, and the raw bytes of the first `info` value to end |
| `Bencode.DecodeTorrent` | internal/bencode/bencode.go:42-56 | Which bytes the info hash is taken over, or which error ends the decoding |
| `BencodePanics.BytesPanicIff` | internal/bencode/bencode.go:186-210 | Reading a string panics if and only if its length is negative or wraps around when the start is added |
| `BencodePanics.DecodePanicIff` | internal/bencode/bencode.go:148-256 | Decoding panics if and only if one of the lengths it comes to read is such |
| `BencodePanics.TorrentPanicIff` | internal/bencode/bencode.go:42-48 | and so does DecodeTorrent |
| `BencodePanics.SafeData` | internal/bencode/bencode.go:42-48 | Data without such a length anywhere does not make it panic |
| `BencodePanics.NegativeLength` | internal/bencode/bencode.go:186-210 | Any negative length as the first key's, as in `d-1:`, does |
| `BencodePanics.HugeLength` | internal/bencode/bencode.go:186-210 | A non-negative length in front does if and only if it passes the largest int together with what stands before the string |
| `BencodeRoundTrip.DecodeEncoded` | internal/bencode/bencode.go:148-256 | Wherever the encoding of a value stands in the input, decoding there reads exactly it, yields the value, and remembers the info bytes it should |
| `BencodeRoundTrip.RoundTrip` | internal/bencode/bencode.go:21-24 | Decoding the encoding of any nested value followed by any bytes gives that value, with the cursor at the encoding's end |
| `BencodeRoundTrip.EncodePrefixFree` | internal/bencode/bencode.go:148-256 | Two encodings of which one begins the other stand for equal values and have equal length |
| `BencodeRoundTrip.TorrentHash` | internal/bencode/bencode.go:42-50 | The info hash covers the encoding of the `info` value that ends first, wherever it is nested |
| `BencodeRoundTrip.TorrentHashIsInfoDict` | internal/bencode/bencode.go:229-256 | With none before it, the hash covers the top-level info dict if and only if no `info` key is nested inside it |
| `BencodeGrammar.DecodesIff` | internal/bencode/bencode.go:148-256 | Exactly the texts of the grammar of BEP 3 are read, numbers written in any way strconv reads, for the values they stand for and to their ends |
| `BencodeGrammar.DecodedSpelled` | internal/bencode/bencode.go:148-256 | Whatever has been decoded is spelled out by the bytes read |
| `BencodeGrammar.TextRead` | internal/bencode/bencode.go:148-256 | Wherever such a text stands it is read |
| `Strconv.ParseIntIff` | internal/bencode/bencode.go:166-184 | Exactly a sign or none, zeros or none and a decimal form are read as an integer, up to 64 bits |
| `Calendar.DateRoundTrip` | internal/scheduler/cron.go:174-243 | The year, month and day of a day number name a date, and building that date gives the day number back |
| `Calendar.NumberRoundTrip` | internal/scheduler/cron.go:174-243 | Every date is what is read off the day it builds |
| `Calendar.MonthIndexMonotone` | internal/scheduler/cron.go:182-191 | Days before a month's first day fall in earlier months, later days in no earlier month |
| `Calendar.WeekdayIsZeller` | internal/scheduler/cron.go:193-209 | The weekday of every date is that of Zeller's congruence |
| `Calendar.WeekdayAnchored` | internal/scheduler/cron.go:193-209 | Weekdays follow one another, and 1 January 1970 was a Thursday |
| `Calendar.ClockRoundTrip` | internal/scheduler/cron.go:174-243 | A minute number gives back the day, hour and minute it was built from |
| `Cron.CronField.Matches` | internal/scheduler/cron.go:44-50 | Whether the field allows the value |
| `Cron.CronField.Next` | internal/scheduler/cron.go:56-76 | The least allowed value from the start on or, wrapped, the least of all; the minimum when nothing is allowed or the start is past the end |
| `Cron.CronSchedule.DayOK` | internal/scheduler/cron.go:193-209 | Both day fields must match unless both are restricted, when either may |
| `Cron.FiresOnDate` | internal/scheduler/cron.go:174-243 | On the calendar: an expression matches a minute of a date exactly when it allows the month, the hour, the minute and, both day fields being restricted, the day of the month or Zeller's weekday, else both |
| `Cron.CronSchedule.Next` | internal/scheduler/cron.go:174-243 | The least matching minute strictly after the given instant if one lies before the limit, and otherwise the limit, with no match in between |
| `Cron.NextUnique` | internal/scheduler/cron.go:174-243 | That pins the result down |
| `Cron.MonthSkip` | internal/scheduler/cron.go:182-191 | A jump to the next allowed month passes no matching minute |
| `Cron.DaySkip` | internal/scheduler/cron.go:193-214 | Nor does a jump to the next day |
| `Cron.HourSkip` | internal/scheduler/cron.go:216-225 | Nor one to the next allowed hour |
| `Cron.MinuteSkip` | internal/scheduler/cron.go:227-236 | Nor one to the next allowed minute |
| `CronRecurrence.NextAlwaysFinds` | internal/scheduler/cron.go:174-243 | From every instant Next finds a match before its limit if and only if the expression recurs: a weekday is restricted, or all days are allowed, or some allowed month has an allowed day every year |
| `CronRecurrence.SilentAfterLeapDay` | internal/scheduler/cron.go:178-179 | An expression that does not recur matches nothing in the 1460 days after the evening of a 29 February |
| `CronRecurrence.IteratesListFires` | internal/scheduler/cron.go:174-243 | Calling Next on its own results lists exactly the matching minutes, in order, none skipped or repeated |
| `CronParse.ParsePart` | internal/scheduler/cron.go:125-172 | A part adds exactly the values it covers, is an error when it is malformed or out of range, and panics exactly when its start plus step passes the largest int |
| `CronParse.ItemReadBack` | internal/scheduler/cron.go:125-172 | Every printed item, `*`, `a` or `a-b` with or without `/n`, is read for exactly every n-th value from its first to its last, or refused if it is out of range or n is not positive |
| `CronParse.OnlyItemsRead` | internal/scheduler/cron.go:125-172 | and nothing else is read |
| `CronParse.SteppedIs` | internal/scheduler/cron.go:168-170 | The marking loop's values are those at a multiple of the step |
| `CronParse.ParseField` | internal/scheduler/cron.go:116-123 | The field holds what its parts describe; the first bad part decides the error |
| `CronParse.DescribedField` | internal/scheduler/cron.go:116-172 | A field read without error allows exactly the values its parts cover, all in range, and at least one |
| `CronParse.ParseCron` | internal/scheduler/cron.go:85-114 | Five fields between runs of white space, each read against its own range; the first bad one decides |
| `CronParse.ParsedAlwaysFinds` | internal/scheduler/cron.go:85-243 | For a parsed expression Next always finds a match unless only the day of the month is restricted, to days no allowed month has every year |
| `CronParse.FieldReadBack` | internal/scheduler/cron.go:116-172 | Any list of items printed with commas between them is read for the values they mean |
| `CronParse.ShownAllows` | internal/scheduler/cron.go:116-172 | and the field allows a value exactly when an item means it |
| `CronParse.WordsOfSpread` | internal/scheduler/cron.go:86 | However words are spaced out, with any UTF-8 white space, splitting finds exactly them |
| `CronParse.ExpressionReadBack` | internal/scheduler/cron.go:85-172 | Five lists of items of any form, printed and spaced out in any way, are read as the one schedule that allows what they mean |
| `Daemon.InvKept` | internal/scheduler/daemon.go:175-269 | Every step of every interleaving keeps the invariant: `running` names exactly the tasks in the runner, `pending` only running ones, the WaitGroup counts the goroutines, and no explicit request is lost |
| `Daemon.ReachableInv` | internal/scheduler/daemon.go:175-269 | So it holds in every reachable state |
| `Daemon.AtMostOneRun` | internal/scheduler/daemon.go:223-245 | No task is in its runner twice |
| `Daemon.AskedIsSpawned` | internal/scheduler/daemon.go:175-221 | In every run the loop starts a goroutine for each request it takes on, at-start, due or off the channel, in order |
| `Daemon.ChannelInOrder` | internal/scheduler/daemon.go:62-114 | The channel holds 16 requests and hands them over in the order they were sent; more are dropped |
| `Daemon.GoroutineFate` | internal/scheduler/daemon.go:226-265 | A goroutine with a request is still to come to it, or has begun its run, or has found a run of that name in progress; an explicit request is then held or has been served |
| `Daemon.EveryRequest` | internal/scheduler/daemon.go:175-265 | So it is with every request taken on, in every run at every step |
| `Daemon.ExplicitServed` | internal/scheduler/daemon.go:223-265 | A request off the channel is held by a goroutine or as pending until a run that serves it begins, a dry run never standing in for a real one |
| `Daemon.OnlyAsked` | internal/scheduler/daemon.go:175-265 | Nothing is run, or waits to be, that was not asked for |
| `Daemon.PendingNeedsRun` | internal/scheduler/daemon.go:228-241 | A pending request's task is running |
| `Daemon.WaitGroupZero` | internal/scheduler/daemon.go:271-284 | When the WaitGroup is at zero nothing runs and nothing is pending, which is what Wait waits for |
| `Daemon.InternalStepsDecrease` | internal/scheduler/daemon.go:223-269 | Without new triggers or timer fires every step brings the daemon closer to rest |
| `Daemon.InternalRunsEnd` | internal/scheduler/daemon.go:223-269 | and so it gets there |
| `Daemon.RestIsServed` | internal/scheduler/daemon.go:223-269 | At rest nothing runs, waits or is queued |
| `Daemon.RestAnswersAll` | internal/scheduler/daemon.go:175-269 | When the daemon comes to rest every request has had a run of its own, or found one in progress; an explicit one has been served |
| `Daemon.DueTaskRuns` | internal/scheduler/daemon.go:297-313 | A due task is run, never as a dry run, unless a run of it is in progress when its turn comes |
| `Daemon.TriggerRuns` | internal/scheduler/daemon.go:223-265 | A trigger off the channel has been followed by a run of its name, and by a real one unless it asked for a dry run |
| `Daemon.Daemon.EnterTask` | internal/scheduler/daemon.go:226-245 | The first locked section of runTask is that step of the protocol |
| `Daemon.Daemon.ExitTask` | internal/scheduler/daemon.go:246-265 | The deferred locked section is that step |
| `Daemon.Timetable.FireDue` | internal/scheduler/daemon.go:297-313 | The due tasks, in order, each moved on to its next time |
| `Daemon.Timetable.NextWake` | internal/scheduler/daemon.go:286-295 | The earliest next time |
| `Daemon.DueExactly` | internal/scheduler/daemon.go:297-313 | A task is fired exactly when one of its entries is due |
| `Daemon.NothingDueAgain` | internal/scheduler/daemon.go:297-313 | With schedules that move forward nothing is due once the due tasks have been fired |
| `Daemon.NoneMissed` | internal/scheduler/daemon.go:297-313 | Over all checks an entry is due exactly when an instant of its schedule has come since the check before, and its next time is the first instant after the check |
| `Graph.Graph.AddNode` | internal/dag/graph.go:48-60 | A node is added exactly when its ID is new and its upstreams are known, and the graph stays well ordered |
| `Graph.Graph.Downstreams` | internal/dag/graph.go:80-88 | Every consumer once |
| `Layers.Layers` | internal/dag/sort.go:14-61 | Kahn's algorithm succeeds if and only if no node repeats an upstream; then each layer, sorted by ID, holds exactly the nodes whose longest upstream path has the layer's index as its length |
| `Layers.PathAtMostDepth` | internal/dag/sort.go:14-61 | No path to a node is longer than its layer index |
| `Layers.LongestPath` | internal/dag/sort.go:14-61 | and one of that length, from a source, exists |
| `Layers.VisitNext` | internal/dag/sort.go:9-13 | Walking the layers in order, everything upstream of a node comes before it |
| `Ordering.ReachesSinkAvoiding` | internal/dag/ordering.go:91-115 | True exactly when a path to a sink misses the avoided node |
| `Ordering.ReachesSourceAvoiding` | internal/dag/ordering.go:271-298 | True exactly when a path from a source misses every gate |
| `Ordering.Ancestors` | internal/dag/ordering.go:243-268 | Every node upstream, once |
| `Ordering.RefusalIsReplayable` | internal/dag/ordering.go:187-223 | True exactly when the decision fields are known and there are some, and for each every path from a source to the collapse meets a replaying node that produces it |
| `Ordering.OrderingWarnings` | internal/dag/ordering.go:46-89 | A warning for a collapse and a refuser is given exactly when the refuser refuses per release, lies on every path from the collapse to a sink, and its refusal is not replayable; once each, collapses in insertion order and refusers by ID |
| `Entries.Split` | internal/entry/entry.go:97-147 | The entries with and without a property, in order |
| `Entries.Entry.Accept` | internal/entry/entry.go:213-221 | Accepting never overrides a rejection |
| `Entries.RejectWins` | internal/entry/entry.go:213-236 | Over any calls of Accept, Reject and Fail one rejection decides for good, and otherwise the last call |
| `Entries.Entry.Consume` | internal/entry/entry.go:255-260 | Consuming leaves the state alone, and refused entries are not consumed |
| `Entries.Entry.Clone` | internal/entry/entry.go:396-415 | A fresh entry with the same contents |
| `Merging.MergeAndDedup` | internal/executor/merge.go:8-26 | The first entry of each URL and every entry without one, in order |
| `Dataflow.MergeIs` | internal/executor/merge.go:8-26 | Merging keeps each URL once and loses none |
| `Dataflow.MergeKeepsFirst` | internal/executor/merge.go:8-22 | and of each URL the first entry, all in their order |
| `Merging.CloneEach` | internal/executor/executor.go:432-434 | For every consumer its own fresh copies, equal to the originals and shared with nobody |
| `Ledger.TurnInOrder` | internal/executor/executor.go:226-304 | A node's turn keeps the books: sourceEntries has the URLs its source records have, each edge those its producer passed on, dropped what was received and neither emitted nor refused, discarded what a replacing node received |
| `Ledger.StoreInOrder` | internal/executor/executor.go:404-438 | and so does storing its outputs |
| `NodeTurn.PreFilter` | internal/executor/executor.go:511-534 | What the plugin is called with, and what bypasses it |
| `Dataflow.BypassIs` | internal/executor/executor.go:511-551 | Everything that arrives either is handed to the plugin, in a state it asks for, or bypasses it |
| `Dataflow.HandedIff` | internal/executor/executor.go:511-551 | What is handed over: entries in a state the plugin asks for, none consumed at a sink, no markers to a plugin that does not take them |
| `Dataflow.BypassIff` | internal/executor/executor.go:511-551 | What bypasses: all others |
| `NodeTurn.RunNode` | internal/executor/executor.go:443-645 | The plugin is called with exactly the live entries in its states, markers only if it takes them; the node passes on the plugin's output and what bypassed it, or nothing after a panic; only entries of its own input are touched |
| `NodeTurn.DeadEnds` | internal/executor/executor.go:272-282 | The entries received and neither emitted nor refused |
| `NodeTurn.SinkURLs` | internal/executor/executor.go:293-304 | The URLs a sink failed, and those it left accepted or consumed |
| `Executor.PipelineRun.CollectUpstream` | internal/executor/executor.go:391-400 | What a node receives is the merge of what its upstreams passed on, as they passed it on |
| `Executor.PipelineRun.CallNode` | internal/executor/executor.go:226-304 | A node's turn changes only the entries that waited for it, and adds to the bookkeeping, sourceEntries and dropped included, exactly its own part |
| `Executor.PipelineRun.StoreOutputs` | internal/executor/executor.go:404-438 | A sole consumer gets the outputs themselves; each of several gets its own clones, and the originals are superseded |
| `Executor.PipelineRun.StoredIsolated` | internal/executor/executor.go:404-438 | Branch isolation: entries waiting on different edges stay disjoint, and none of them is superseded |
| `Executor.PipelineRun.TurnUntouched` | internal/executor/executor.go:193-307 | Running a node leaves every entry that waits elsewhere, and the originals behind every fan-out, as their producer left them |
| `Executor.PipelineRun.StoredLive` | internal/executor/executor.go:432-437 | Every URL of a superseded original is carried on some edge by an entry that is not superseded |
| `Executor.PipelineRun.RunOne` | internal/executor/executor.go:193-307 | One round of the loop keeps all of this, for any plugins, and the books: what the counters are computed from is what the records of the nodes say |
| `Executor.PipelineRun.TurnBalanced` | internal/executor/executor.go:226-304 | Calling a node keeps the books |
| `Executor.PipelineRun.StoredBalanced` | internal/executor/executor.go:404-438 | Storing its outputs keeps them |
| `Executor.PipelineRun.StoredSupersedes` | internal/executor/executor.go:432-437 | The superseded entries are exactly the originals behind a fan-out |
| `Run.RunLayers` | internal/executor/executor.go:193-307 | The whole loop keeps it: afterwards every node has run, and the originals behind a fan-out stand as their node left them |
| `Run.RunSettles` | internal/executor/executor.go:138-307 | A run over shared entries that plugins change in place has computed exactly the dataflow without sharing: every record fits what its upstreams passed on, the delivered and failed URLs are those of the sinks' records, and the books are in order |
| `Run.CommitLayers` | internal/executor/executor.go:316-360 | Commit is called for each committing processor with its outputs without a URL and those delivered somewhere and failed nowhere, in order; no other node commits |
| `Run.ToCommitIs` | internal/executor/executor.go:336-348 | Exactly those, and no others |
| `Run.Run` | internal/executor/executor.go:138-388 | The outcome of a run: refused for a repeated upstream or a missing plugin, or settled; a dry run commits nothing; the tally is that of the entries on the edges; and when no node replaces its upstream the URLs it lists are exactly those that left a source or a node with a consumer |
| `Run.NoURLLost` | internal/executor/executor.go:404-438 | When no node replaces its upstream, every URL that came from a source or crossed an edge is counted: superseding originals loses none |
| `Run.OnlyFlowed` | internal/executor/aggregate.go:31-108 | Whatever URL is counted left a source or a node with a consumer |
| `Run.CountedURLs` | internal/executor/executor.go:404-438 | So the counted URLs are exactly those, by the records of the nodes, when no node replaces its upstream |
| `Run.CountedStates` | internal/executor/aggregate.go:31-108 | What a run's tally is of: the entries on edges and from sources that no clone and no replacing node stands in for, each with its state, or as undecided if some node received it and neither emitted nor refused it |
| `Run.CountedOutcomes` | internal/executor/aggregate.go:9-108 | The counters of a run: a key of several copies counts once, as accepted if any is, else as rejected, else as failed, else as undecided |
| `Aggregate.SortEdgeKeys` | internal/executor/aggregate.go:112-126 | Sorts the edges by their ends, in place |
| `Aggregate.AggregateCounters` | internal/executor/aggregate.go:31-108 | Sources first, then the edges in order: one entry per key, in the order the keys are first met |
| `Aggregate.ChampionIs` | internal/executor/aggregate.go:45-72 | A key's entry is the first of its copies that no other outranks |
| `Aggregate.TallyIs` | internal/executor/aggregate.go:92-107 | The four counts add up to the number of listed entries; these have distinct keys, stand for all counted copies, and are each the first strongest of theirs |
| `Aggregate.TallyCounts` | internal/executor/aggregate.go:9-108 | Each of the four counts is the number of keys with a copy in that state and none in a stronger one, accepted before rejected before failed before undecided |
| `Aggregate.CopiesAre` | internal/executor/aggregate.go:45-72 | What is counted: the walked entries that are neither discarded nor superseded, those that stopped short as undecided |
| `StateCert.StateCertainty.AddAll` | internal/dag/statecert.go:122-132 | Adds the fields to the populated buckets among the states, and changes no other; it panics exactly when one of them is a nil map and there is a field to add |
| `StateCert.StateCertainty.Copy` | internal/dag/statecert.go:101-107 | The same value with buckets of its own; the zero value gets slots, and nil maps in them |
| `StateCert.StateCertainty.Swap` | internal/dag/statecert.go:138-156 | Exchanges two buckets with their populated bits |
| `StateCert.StateCertainty.Intersect` | internal/dag/statecert.go:166-189 | Per state, what both sides hold, or what the only side that populates it holds |
| `StateCert.StateCertainty.Effective` | internal/dag/statecert.go:199-222 | What every populated bucket among the states holds |
| `StateCert.StateCertainty.NarrowAcceptedUndecided` | internal/dag/statecert.go:238-295 | Promotes into the passing buckets, and cuts the Rejected bucket down to what is certain of the newly rejected; it panics exactly when it promotes into a nil map |
| `StateCert.StateCertainty.RemoveFromAcceptedUndecided` | internal/dag/statecert.go:303-308 | Takes the fields out of the passing buckets |
| `StateCert.StateCertainty.PromoteAccepted` | internal/dag/statecert.go:321-335 | Populates Accepted, from Undecided if it was not, and promotes into it; it panics exactly when it promotes into a nil map |
| `CertMeaning.CoversExact` | internal/dag/statecert.go:33-36 | One value claims no more than another exactly when it allows for every entry the other allows for |
| `CertMeaning.IntersectionLeast` | internal/dag/statecert.go:158-189 | A merge claims all that can be said of the entries of both sides |
| `CertMeaning.EffectiveExact` | internal/dag/statecert.go:191-222 | A field is effective for some states exactly when every entry there can be in them has it |
| `CertMeaning.WriteBest` | internal/dag/statecert.go:115-132 | Adding fields is the best that can be claimed after an enricher |
| `CertMeaning.FlipBest` | internal/dag/statecert.go:134-156 | Swapping is the best that can be claimed after swap_state |
| `CertMeaning.FilterSound` | internal/dag/statecert.go:224-295 | Narrowing is right about a require filter, whether or not it passes on what it rejects, and whichever field is taken for the absent one |
| `FieldPaths.RejectedRightIff` | internal/dag/validate.go:430-444 | Behind a require node an entry rejected for want of a field is not taken to have it, if and only if no field but the first was certain of every entry before |
| `FieldPaths.RejectedLacksOne` | internal/dag/statecert.go:232-234 | For a single field it never is |
| `FieldPaths.SecondStaysClaimed` | internal/dag/validate.go:439-443 | With two fields that a source sets, what lacks the second still counts as having it |
| `CertMeaning.ClassifySoundIff` | internal/dag/validate.go:159-166 | For a node that accepts entries the update is right if and only if the Accepted bucket fits every bucket it accepts from |
| `CertMeaning.ClassifiableDefault` | internal/dag/validate.go:147-166 | for the usual classifier: if and only if, when both are populated, Accepted holds nothing beyond Undecided and what the node sets |
| `CertMeaning.UntrackedSoundIff` | plugins/processor/filter/accept_all/accept_all.go:14-40 | A node that accepts without setting anything is not tracked at all: right if and only if the Accepted bucket allows for what it accepts |
| `CertMeaning.AcceptSoundIff` | internal/dag/statecert.go:310-335 | Promoting for an accept rule is right if and only if it claims nothing new of entries that were accepted already, nor they of those accepted now |
| `CertMeaning.RejectSoundIff` | internal/dag/statecert.go:238-241 | A reject rule that promotes nothing changes nothing; for a filter that passes on what it rejects that is right if and only if the Rejected bucket already allows for it |
| `FieldFlow.EditorAgrees` | internal/dag/fieldsets.go:44-138 | With every plugin registered and no sub-plugins on condition, require and swap_state nodes, the editor's walk finds the validator's field sets at every node |
| `FieldFlow.OrderMatters` | internal/dag/fieldsets.go:77-133 | With a sub-plugin on a require node they can differ, because the two apply their rules in different orders |
| `FieldFlow.PortMarksRejected` | internal/dag/condnarrow.go:177-202 | Where anything is inferred of a port's entries the Rejected bucket becomes populated, and only there |
| `Validate.InheritReachAndCert` | internal/dag/validate.go:241-273 | The union of what is reachable and the per-state intersection of what is certain, over all upstreams; nil maps exactly for a sole upstream with an unknown plugin |
| `Validate.CheckRole` | internal/dag/validate.go:63-80 | Exactly the structural errors of a node |
| `Validate.CheckNeeds` | internal/dag/validate.go:90-120 | Exactly the Requires errors and warnings of a node |
| `Validate.FreshFields` | internal/dag/condnarrow.go:20-63 | What an expression adds: the reachable fields it narrows that are not certain yet, the alphabetically first in front |
| `Validate.ApplyRules` | internal/dag/validate.go:336-421 | The rules of a condition node one after the other, each on what the ones before it left |
| `Validate.ApplyPort` | internal/dag/condnarrow.go:185-202 | What a route port's expression adds and takes out before the node is checked |
| `Validate.ApplyNode` | internal/dag/validate.go:145-223 | What a node adds to what enters it, in the validator's order; over buckets it never panics, over nil maps exactly when it comes to write |
| `Validate.Validate` | internal/dag/validate.go:33-228 | The errors and warnings are exactly those that hold of the field sets of the graph; a graph Layers refuses is one error; and it panics exactly when a node comes to write a field after an unknown plugin as its only upstream |
| `NodeFields.ComputeNodeFields` | internal/dag/fieldsets.go:26-142 | The field sets shown for every node are those of the editor's walk |
| `NodeFields.ShowsWhatIsChecked` | internal/dag/fieldsets.go:44-138 | What the editor shows of a node is what the validator checks it against, under the same conditions |
| `NodeFields.KeepsReachableIff` | internal/dag/fieldsets.go:13-21 | From reachable certain fields a node leads to reachable certain fields, whatever arrives, if and only if it takes no field out of reach for good |
| `NodeFields.ShownUnreachable` | internal/dag/fieldsets.go:44-138 | Source, swap_state, condition, swap_state: a graph for which a certain field is shown that is not reachable |
| `NodeFields.ShownCertainIsReachable` | internal/dag/fieldsets.go:13-21 | Where no node does, the certain fields shown are a subset of the reachable ones |
| `Conditions.RulesSound` | internal/dag/validate.go:336-421 | Where a condition's rules fit, whatever they decide of an entry is allowed for by what their analysis leaves |
| `Conditions.RulesSoundIff` | internal/dag/validate.go:336-421 | For any list of rules the analysis is right about whatever they decide if and only if it claims no more of any way through them than is known along it |
| `Conditions.RejectsFit` | internal/dag/validate.go:399-418 | Rules that only reject always fit |
| `Conditions.FirstAcceptFits` | internal/dag/validate.go:386-398 | A single rule fits where nothing was accepted before |
| `Conditions.RejectAcceptedIff` | internal/dag/statecert.go:242-295 | A reject rule is rightly applied to what was accepted before it if and only if it claims nothing new of that |
| `Conditions.AcceptedBeforeRejected` | plugins/processor/filter/condition/condition.go:217-269 | Rules that do not fit can claim a field an accepted entry has not got, since what one rule accepts no later rule is asked about |
| `Soundness.NodeRuleSound` | internal/dag/validate.go:145-223 | Each kind of node: what leaves it is in a state marked populated and has that state's certain fields, if what arrived did |
| `Soundness.InheritedDescribes` | internal/dag/validate.go:241-273 | So it is through a merge |
| `Soundness.LeavesDescribed` | internal/dag/validate.go:84-225 | and by induction over the graph, at every node |
| `Soundness.ValidatorSound` | internal/dag/validate.go:84-225 | If the validator is silent, every entry a plugin is called with has a field of each Requires group, even where swap_state revives rejected entries; not so a marker at a plugin that takes markers and has Requires, nor what one sink has failed and hands to another |
| `Soundness.MarkersEscape` | internal/plugin/registry.go:142-150 | The condition on markers is needed: a plugin that took markers and had Requires could be handed one without the field. Of the registered plugins only route_selector does both, and route sets its field |
| `Soundness.HasIsInBag` | internal/entry/entry.go:325-342 | A field other than title, url, original_url and task that Get finds is in the metadata bag |
| `FieldPaths.RevivedIsWarned` | internal/dag/statecert.go:232-234 | If entries rejected for want of a field can come, through swap_state nodes and any others that do not set it, to a node that takes them and requires it, the validator finds that node wanting |
| `FieldPaths.RevivingWarned` | internal/dag/validate.go:423-444 | so with a source of the field, require, swap_state and a processor that requires it |
| `FieldPaths.ReachIff` | internal/dag/validate.go:145-223 | A field is in reach behind a node if and only if a path leads there from a node that can set it, through nodes that let it by |
| `Exactness.OrdinaryTight` | internal/dag/validate.go:145-178 | Every field not claimed behind an enricher or classifier can be missing there |
| `Exactness.RequireTight` | internal/dag/statecert.go:224-295 | so behind require, but for its first field of what it rejects |
| `Exactness.SwapTight` | internal/dag/statecert.go:134-156 | behind swap_state |
| `Exactness.SourceTight` | internal/dag/validate.go:159-160 | and behind a source |
| `Exactness.AcceptExact` | internal/dag/validate.go:386-398 | A reachable field is claimed of what an accept rule accepts, where nothing was before, exactly when all that it accepts has it |
| `Exactness.RejectExact` | internal/dag/validate.go:399-418 | A reachable field is claimed of what a reject rule passes on exactly when all that it passes on has it |
| `Exactness.RejectForgets` | internal/dag/validate.go:399-404 | A field a reject rule takes out is neither in reach nor certain of what passes |
| `Exactness.AbsentIdle` | internal/dag/validate.go:411-418 | The field a reject rule names as absent takes nothing away |
| `Exactness.PortExact` | internal/dag/condnarrow.go:177-202 | A reachable field is claimed of the accepted entries at a port exactly when all that its expression is true of has it |
| `Exactness.CertainForExact` | internal/dag/validate.go:90-120 | A node is checked against exactly the fields of all entries it can be called with or, when there can be none, of all passing ones |
| `AcceptAll.AcceptAllEscapes` | plugins/processor/filter/accept_all/accept_all.go:14-40 | accept_all and movies merged into dedup: the validator is silent about dedup, which can be handed an entry without media_type |
| `FilterPlugins.RequireProcess` | plugins/processor/filter/require/require.go:106-117 | Rejects exactly the entries that lack one of the fields and passes on the rest |
| `FilterPlugins.ConditionProcess` | plugins/processor/filter/condition/condition.go:217-278 | Each entry ends up as the first rule that matches leaves it, judged as often as it is handed in; refused entries are not passed on |
| `FilterPlugins.JudgedByFirst` | plugins/processor/filter/condition/condition.go:217-269 | The first rule that says anything of an entry decides: rejected if its reject expression is true, else accepted; a failed entry stays as it is |
| `FilterPlugins.JudgedOnce` | plugins/processor/filter/condition/condition.go:217-278 | Judging again changes nothing unless an expression reads the state |
| `FilterPlugins.SwapProcess` | plugins/processor/modify/swap_state/swap_state.go:92-115 | Flips the two states, of exactly the entries that are handed in an odd number of times |
| `FilterPlugins.SwapTwice` | plugins/processor/modify/swap_state/swap_state.go:92-115 | An entry handed in twice stays rejected |
| `FilterPlugins.RequireBehaves` | plugins/processor/filter/require/require.go:106-117 | require does what the theorem asks of it |
| `FilterPlugins.ConditionBehaves` | plugins/processor/filter/condition/condition.go:217-278 | and condition, if its expressions can be evaluated and allow what is inferred from them |
| `FilterPlugins.SwapBehaves` | plugins/processor/modify/swap_state/swap_state.go:92-115 | and so does swap_state |
| `SilentRun.SilentRunIsSound` | internal/executor/executor.go:443-645 | The theorem for a completed run over shared entries |
| `Narrowing.NarrowCertain` | internal/expr/expr.go:359-404 | Appends the fields taken to be set when the expression is true |
| `Narrowing.CollectAbsent` | internal/expr/expr.go:304-335 | Appends the fields taken to be unset when it is true |
| `Narrowing.WayTrue` | internal/expr/expr.go:359-404 | An expression multiplied out: whenever it is true, so are all comparisons of one of its ways |
| `Narrowing.NarrowedIff` | internal/expr/expr.go:359-404 | A field is taken to be set exactly when every way mentions it in a comparison other than equality with nothing |
| `Narrowing.RemovedIff` | internal/expr/expr.go:304-335 | and to be unset exactly when every way compares it for equality with nothing |
| `Narrowing.PromotedIff` | internal/expr/expr.go:241-268 | Something is taken to be set after a false expression exactly when each of its alternatives is such a comparison: those fields |
| `Narrowing.NarrowedPresent` | internal/expr/expr.go:170-190 | If the expression is true and its comparisons are false of an unset field, every field it narrows is there and not empty |
| `Narrowing.LeafExact` | internal/expr/expr.go:382-401 | For one comparison with a literal that condition is exact |
| `Narrowing.FittingComparisons` | internal/expr/expr.go:382-401 | Which operators meet it: equality, at-least and containment with a literal that is not blank, and greater-than with any; inequality, less and at-most do not |
| `Narrowing.RemovedUnset` | internal/expr/expr.go:224-239 | If the expression is true, every field it takes for unset is missing, empty or zero |
| `Narrowing.PromotedPresentIff` | internal/expr/expr.go:241-268 | If alternatives of blank and zero tests are false, every field tested is there and not empty, for all data, if and only if every field compared with zero is compared with the empty string too |
| `Narrowing.ZeroPromotedMissing` | internal/expr/expr.go:261-263 | So a false test against zero alone says nothing of the field |
| `Narrowing.ZeroOrBlankPromotes` | internal/expr/expr.go:241-268 | and with a blank test beside it all is well |
| `Narrowing.RemovedUnsetIff` | internal/expr/expr.go:270-300 | If alternatives of presence tests are false, every field tested is unset, for all data, if and only if every field tested to be positive is tested to be non-empty too |
| `PipelineState.Store.MergeRows` | internal/pipelinestate/pipelinestate.go:335-362 | Each key of the source is moved or settled by its kind's rule; the counts are those of the plan; nothing but the destination changes, and that only when applying |
| `PipelineState.Store.Move` | internal/pipelinestate/pipelinestate.go:266-373 | A plan that cannot be carried out and a dry run change nothing; otherwise the source buckets end up empty, the destinations hold the combined records, no other bucket changes, and the report is the plan's. It stops half-way exactly when a seen record cannot be retagged, and then no source record is lost |
| `PipelineState.CombinedBucket` | internal/pipelinestate/pipelinestate.go:443-500 | Of two records that collide the better film, the later search and otherwise the destination's is kept; all others are kept, and seen records name the new pipeline |
| `PipelineState.CombinesIff` | internal/pipelinestate/pipelinestate.go:443-516 | Buckets can be combined exactly when the records that must be read can be |
| `PipelineState.ThereAndBack` | internal/pipelinestate/pipelinestate.go:266-373 | Moving to a free name and back restores a bucket if and only if none of its records named another pipeline |
| `PipelineState.Store.MoveThereAndBack` | internal/pipelinestate/pipelinestate.go:266-373 | Two moves, to a free name and back: the second comes through if the first does, the name is free again, no other bucket has changed, and each bucket is restored exactly under that condition |
| `PipelineState.BucketNamesDiffer` | internal/pipelinestate/pipelinestate.go:291-294 | No two kinds or pipelines share a bucket |
| `RotatingLog.Writer.Write` | internal/logfile/rotating.go:50-73 | A write lands whole at the end of the base file, after a rotation exactly when it would have pushed a non-empty file past the limit; the lines reported are those of the written bytes; over a stale handle nothing is written any more |
| `RotatingLog.Writer.RotateLocked` | internal/logfile/rotating.go:127-161 | Every archive moves one slot on and the oldest is dropped; wherever it fails, the files still hold the newest records in order; a failing close leaves a stale handle behind, over which no rotation succeeds |
| `RotatingLog.HeldMoved` | internal/logfile/rotating.go:142-148 | Moving a file into the next free slot keeps the order of the records |
| `RotatingLog.HeldDropped` | internal/logfile/rotating.go:137-141 | Removing the last archive drops only the oldest records |
| `RotatingLog.LinesStand` | internal/logfile/rotating.go:79-92 | Every reported offset is the end, in the base file, of a line with the reported text, in increasing order |
| `RotatingLog.LinesComplete` | internal/logfile/rotating.go:79-92 | Every newline written ends a reported line |
| `RotatingLog.LinesAreAll` | internal/logfile/rotating.go:79-92 | The reported lines with their newlines are all that was written but for what follows the last newline |
| `After.ValidateAfter` | internal/config/after.go:24-63 | Exactly the malformed, self-referring, unknown and endless references are reported |
| `After.WalksInCircles` | internal/config/after.go:42-62 | The walk finds a cycle exactly when the chain of parents never ends |
| `After.ChainsEnd` | internal/config/after.go:24-63 | With nothing reported every chain of parents ends at a pipeline of the config that follows none |
| `After.Dependents` | internal/config/after.go:66-79 | Exactly the pipelines to fire, once each |
| `After.FiredOnce` | internal/config/after.go:66-79 | With nothing reported the cascade set off by one run reaches each pipeline in at most one way |

## Left out

- Validate.Validate: leaves out the separate passes over run_on, deprecated fields, globs, webhooks and accept-only conditions; ordering warnings are `Ordering.OrderingWarnings`. The fields an expression narrows, promotes or removes, with the field groups, are given with its rule or port, and condition, require and swap_state are processors, as registered. Findings are compared as a set, not in their order, and without their wording.
- Soundness.ValidatorSound: speaks of sources, enrichers, classifiers, condition, require, swap_state, merges, fan-out and sinks, not of route ports. Classifiers, nodes that accept without Produces, and conditions have to meet the exact conditions of `CertMeaning.ClassifySoundIff`, `CertMeaning.UntrackedSoundIff` and `Conditions.RulesSoundIff`; swap_state is handed no entry twice. An enricher writes its Produces on every entry it returns and keeps its state; a sink that other sinks follow keeps the state of its entries or fails them. The settled releases that movies and series add to their output, from their store, are left out. Plugins that widen their input states from their configuration are left out.
- NodeFields.ComputeNodeFields: field names are sets, not sorted lists.
- Run.Run: leaves out cancellation, plugin errors other than a panic (they do not change what is passed on), plugins that do not implement their declared role, logging, traces, per-node results and field validation in debug mode. What a plugin does in Commit may change the entries it is given.
- Run.NoURLLost: entries without a URL count by identity, and each clone of one by itself; a URL that spells a pointer key is not considered.
- Aggregate.AggregateCounters: a key is a URL or an entry, not the string the two share.
- Entries.Entry.Accept: changes the state only; the reason given is not kept.
- Entries.Entry.Clone: copies the modelled fields; the reasons and the node of the last state change are not among them.
- NodeTurn.RunNode: panics stand for every abnormal end of a plugin; the reasons an entry was accepted, rejected or failed for are not kept.
- Daemon.InvKept: leaves out cancellation, a runner that panics, and the default cause of a request without one, which nothing sends. Which cause a collapsed request keeps is not stated.
- Daemon.Timetable.NextWake: times are integers, and the zero time is a separate flag.
- Cron.CronSchedule.Next: UTC only; instants are nanoseconds.
- Bencode.DecodeTorrent: the hash is represented by the bytes it is taken over; the other metadata fields are left out.
- Candidates.Probe: the fuzzy match and the comparison of years are parameters; titles are rune sequences.
- Narrowing.NarrowedPresent: the lexer and parser are not part of this model; dates, number formats, regular expressions and the clock are parameters, numbers are reals without NaN or infinity, and the condition a whole expression is tested as also takes ints and nil, which Eval refuses at the root.
- PipelineState.Store.Move: the store's own errors are left out; records are maps of typed fields, and the order of qualities is a parameter. Forget, Scan and Orphans are left out.
- RotatingLog.Writer.Write: an append to a usable handle is taken to succeed, every other file operation may fail; file names are slot numbers.
- After.ValidateAfter: findings are compared as a set, without their wording.
- Ordering.OrderingWarnings: what the registry and the configuration say of a node (decision fields, replaying, refusal) is a parameter.
- HTTP, HTML and release-name parsing, the quality ladder, SQLite, Starlark, Go templates, the CLI, the web interface, the ingest queue and the notification plugins: not part of this model.
