/** Executor.Run (internal/executor/executor.go): the node loop, the commit phase and the count. */
module Run {
  import opened Graph
  import opened Entries
  import opened Dataflow
  import opened Ledger
  import opened Executor
  import Aggregate
  import Layers
  import Plugins

  datatype Outcome = Completed(tally: Aggregate.Tally) | NotLayered | NoPlugin(node: NodeID)

  // --- The node loop ---

  /** The node loop; it stops at a node that has no plugin instance. */
  method RunLayers(run: PipelineRun, layers: seq<seq<NodeID>>) returns (ok: bool, missing: NodeID)
    requires run.Valid() && run.done == {} && run.known == {}
    requires run.graph.Valid() && Layers.IsLayering(run.graph.View(), layers)
    modifies run
    ensures run.Valid() && fresh(run.known)
    ensures ok ==> run.done == run.graph.nodes.Keys
    ensures !ok ==> missing in run.graph.nodes && missing !in run.plugins
    ensures forall n :: n in run.producedBy && FansOut(run.graph.View(), n) ==> OriginalsStand(run, n)
  {
    hide *;
    ghost var d := run.graph.View();
    Layers.ViewNodes(run.graph);
    Layers.VisitAll(d, layers, {});
    for k := 0 to |layers|
      invariant run.Valid() && fresh(run.known) && run.graph.Valid() && run.graph.View() == d
      invariant Layers.Visited(d, layers, k, 0, run.done)
    {
      for j := 0 to |layers[k]|
        invariant run.Valid() && fresh(run.known) && run.graph.Valid() && run.graph.View() == d
        invariant Layers.Visited(d, layers, k, j, run.done)
      {
        var n := layers[k][j];
        Layers.VisitNext(d, layers, k, j, run.done);
        Layers.ViewNodes(run.graph);
        if n !in run.plugins {
          OriginalsKept(run);
          return false, n;
        }
        run.RunOne(n);
      }
      Layers.VisitLayer(d, layers, k, run.done);
    }
    Layers.VisitAll(d, layers, run.done);
    Layers.ViewNodes(run.graph);
    OriginalsKept(run);
    return true, "";
  }

  /** The kept outputs of a node still stand as they left it, whatever later nodes did to the copies. */
  ghost predicate OriginalsStand(run: PipelineRun, n: NodeID)
    reads run, if n in run.producedBy then (set e | e in run.producedBy[n]) else {}
  {
    n in run.producedBy && n in run.plugins && n in run.recs
    && Views(run.producedBy[n]) == Leaves(run.plugins[n], run.recs[n])
  }

  lemma OriginalsKept(run: PipelineRun)
    requires run.Valid()
    ensures forall n :: n in run.producedBy && FansOut(run.graph.View(), n) ==> OriginalsStand(run, n)
  {
    hide Views, Leaves, FansOut, Built;
  }

  // --- The commit phase ---

  /** The outputs a commit is given: those without a URL, and those delivered somewhere and failed nowhere. */
  function ToCommit(produced: seq<Entry>, delivered: set<string>, failed: set<string>): seq<Entry> {
    if produced == [] then []
    else
      var e := produced[|produced| - 1];
      ToCommit(produced[..|produced| - 1], delivered, failed)
      + if e.url == "" || (e.url in delivered && e.url !in failed) then [e] else []
  }

  lemma {:induction false} ToCommitIs(produced: seq<Entry>, delivered: set<string>, failed: set<string>)
    ensures forall e :: e in ToCommit(produced, delivered, failed) <==>
      e in produced && (e.url == "" || (e.url in delivered && e.url !in failed))
  {
    if produced != [] {
      var n := |produced| - 1;
      ToCommitIs(produced[..n], delivered, failed);
      assert produced == produced[..n] + [produced[n]];
    }
  }

  method Committable(produced: seq<Entry>, delivered: set<string>, failed: set<string>) returns (toCommit: seq<Entry>)
    ensures toCommit == ToCommit(produced, delivered, failed)
  {
    toCommit := [];
    for i := 0 to |produced|
      invariant toCommit == ToCommit(produced[..i], delivered, failed)
    {
      assert produced[..i + 1][..i] == produced[..i];
      var e := produced[i];
      if e.url == "" || (e.url in delivered && e.url !in failed) {
        toCommit := toCommit + [e];
      }
    }
    assert produced[..|produced|] == produced;
  }

  predicate Commits(inst: Instance) { inst.role.Processor? && inst.commits }

  /** What has been committed once the commit phase has passed these nodes. */
  ghost predicate Committed(run: PipelineRun, nodes: set<NodeID>, committed: map<NodeID, seq<Entry>>)
    reads run
  {
    && (forall n :: n in committed <==> n in nodes && n in run.plugins && Commits(run.plugins[n]))
    && forall n :: n in committed ==>
         n in run.producedBy && committed[n] == ToCommit(run.producedBy[n], run.deliveredURLs, run.failedURLs)
  }

  /** Every processor that ran left its outputs to commit from. */
  ghost predicate Supplied(run: PipelineRun)
    reads run
  {
    && (forall n :: n in run.done && n in run.plugins && run.plugins[n].role.Processor? ==> n in run.producedBy)
    && forall n, e :: n in run.producedBy && e in run.producedBy[n] ==> e in run.known
  }

  lemma CommitNext(run: PipelineRun, passed: set<NodeID>, committed: map<NodeID, seq<Entry>>, n: NodeID)
    requires Committed(run, passed, committed) && Supplied(run) && n in run.done && n !in passed
    ensures n in run.plugins && Commits(run.plugins[n]) ==>
      && n in run.producedBy && (forall e :: e in run.producedBy[n] ==> e in run.known)
      && Committed(run, passed + {n}, committed[n := ToCommit(run.producedBy[n], run.deliveredURLs, run.failedURLs)])
    ensures !(n in run.plugins && Commits(run.plugins[n])) ==> Committed(run, passed + {n}, committed)
  {
  }

  /** Calls Commit once for each committing processor; `committed` is what each was given. */
  method CommitLayers(run: PipelineRun, layers: seq<seq<NodeID>>) returns (ghost committed: map<NodeID, seq<Entry>>)
    requires run.Valid() && run.done == run.graph.nodes.Keys
    requires run.graph.Valid() && Layers.IsLayering(run.graph.View(), layers)
    modifies run.known
    ensures Committed(run, run.done, committed)
  {
    hide *;
    committed := map[];
    ghost var d := run.graph.View();
    ghost var passed: set<NodeID> := {};
    CommitStart(run);
    Layers.ViewNodes(run.graph);
    Layers.VisitAll(d, layers, {});
    for k := 0 to |layers|
      invariant Layers.Visited(d, layers, k, 0, passed) && Committed(run, passed, committed) && Supplied(run)
    {
      for j := 0 to |layers[k]|
        invariant Layers.Visited(d, layers, k, j, passed) && Committed(run, passed, committed) && Supplied(run)
      {
        var n := layers[k][j];
        Layers.VisitNext(d, layers, k, j, passed);
        CommitNext(run, passed, committed, n);
        passed := passed + {n};
        if n !in run.plugins || !Commits(run.plugins[n]) { continue; }
        var toCommit := Committable(run.producedBy[n], run.deliveredURLs, run.failedURLs);
        ToCommitIs(run.producedBy[n], run.deliveredURLs, run.failedURLs);
        ghost var given := Plugins.Commit(toCommit);
        committed := committed[n := given];
      }
      Layers.VisitLayer(d, layers, k, passed);
    }
    Layers.VisitAll(d, layers, passed);
  }

  lemma CommitStart(run: PipelineRun)
    requires run.Valid()
    ensures Supplied(run) && Committed(run, {}, map[])
  {
  }

  // --- The run ---

  /** What a completed run has computed, whatever the plugins did to the entries they were handed. */
  ghost predicate Settled(run: PipelineRun)
    reads run, run.graph
  {
    && run.graph.Valid() && IsDataflow(run.graph.View(), run.plugins, run.recs)
    && run.deliveredURLs == Delivered(run.plugins, run.recs) && run.failedURLs == FailedAtSink(run.plugins, run.recs)
    && (forall n :: n in run.producedBy <==> n in run.recs && run.plugins[n].role.Processor?)
    && (forall n :: n in run.producedBy ==> ProducedURLs(run, n))
    && run.Live() && run.Discards() && run.done == run.recs.Keys
    && run.Balanced() && run.Supersedes({}) && EdgesStand(run)
  }

  /** There is an edge to every consumer of a node that passed on anything, and no other. */
  ghost predicate EdgesStand(run: PipelineRun)
    reads run, run.graph
  {
    && (forall k :: k in run.edge ==> k.0 in run.recs && k.1 in Downs(run.graph.View(), k.0))
    && forall n, x :: n in run.recs && n in run.plugins && x in Downs(run.graph.View(), n) ==>
         (n, x) in run.edge || Leaves(run.plugins[n], run.recs[n]) == []
  }

  /** A processor's kept outputs are, URL by URL, what its record says left it. */
  ghost predicate ProducedURLs(run: PipelineRun, n: NodeID)
    requires n in run.producedBy && n in run.plugins && n in run.recs
    reads run
  {
    var leaves := Leaves(run.plugins[n], run.recs[n]);
    |run.producedBy[n]| == |leaves| && forall i :: 0 <= i < |leaves| ==> run.producedBy[n][i].url == leaves[i].url
  }

  lemma RunSettles(run: PipelineRun)
    requires run.Valid() && run.done == run.graph.nodes.Keys
    ensures Settled(run) && run.done <= run.plugins.Keys
  {
    hide Leaves, Views, Delivered, FailedAtSink, Fits, FansOut, Downs, Built;
    hide PipelineRun.Live, PipelineRun.Discards, PipelineRun.Isolated, PipelineRun.Untouched, PipelineRun.Known;
    hide PipelineRun.Balanced, PipelineRun.Supersedes;
  }

  method Run(graph: Graph, plugins: map<NodeID, Instance>, dryRun: bool)
    returns (outcome: Outcome, run: PipelineRun, ghost committed: map<NodeID, seq<Entry>>)
    requires graph.Valid()
    ensures fresh(run) && run.graph == graph && run.plugins == plugins
    ensures outcome.NotLayered? <==> exists n :: n in graph.nodes && !Distinct(graph.nodes[n].upstreams)
    ensures outcome.NoPlugin? ==> outcome.node in graph.nodes && outcome.node !in plugins
    ensures outcome.Completed? ==> Settled(run) && run.done == graph.nodes.Keys <= plugins.Keys
    ensures committed == map[] || (outcome.Completed? && !dryRun)
    ensures outcome.Completed? && !dryRun ==> Committed(run, run.done, committed)
    ensures outcome.Completed? ==> Tallied(run, outcome.tally)
    ensures outcome.Completed? && (forall n :: n in run.done ==> !plugins[n].discards) ==> CountsAll(run, outcome.tally)
  {
    hide *;
    run := new PipelineRun(graph, plugins);
    committed := map[];
    var layering := Layers.Layers(graph);
    Layers.ViewNodes(graph);
    if layering.Cycle? {
      return NotLayered, run, committed;
    }
    var ok, missing := RunLayers(run, layering.layers);
    if !ok {
      return NoPlugin(missing), run, committed;
    }
    RunSettles(run);
    if !dryRun {
      committed := CommitLayers(run, layering.layers);
    }
    var tally := Aggregate.AggregateCounters(run.sourceEntries, run.edge,
      Aggregate.Marks(run.discarded, run.superseded, run.dropped));
    TalliedBy(run, tally);
    if forall n :: n in run.done ==> !plugins[n].discards {
      CountedURLs(run, tally);
    }
    outcome := Completed(tally);
  }

  /** The tally counts the copies on the edges and from the sources, without the discarded and superseded ones. */
  ghost predicate Tallied(run: PipelineRun, t: Aggregate.Tally)
    reads *
  {
    Aggregate.Tallies(t, run.sourceEntries, run.edge, Aggregate.Marks(run.discarded, run.superseded, run.dropped))
  }

  lemma TalliedBy(run: PipelineRun, t: Aggregate.Tally)
    requires Aggregate.Tallies(t, run.sourceEntries, run.edge,
      Aggregate.Marks(run.discarded, run.superseded, run.dropped))
    ensures Tallied(run, t)
  {
    hide Aggregate.Tallies;
  }

  // --- What is counted ---

  /** This URL left a source, or a node with a consumer. */
  ghost predicate Flowed(d: Dag, plugins: map<NodeID, Instance>, recs: map<NodeID, Record>, url: string) {
    exists n, i :: n in recs && n in plugins && (plugins[n].role.Source? || Downs(d, n) != {})
      && 0 <= i < |Leaves(plugins[n], recs[n])| && Leaves(plugins[n], recs[n])[i].url == url
  }

  /** The entries a URL can be counted by: those of the sources, and those on the edges. */
  ghost predicate Walked(run: PipelineRun, e: Entry)
    reads run
  {
    e in run.sourceEntries || exists k :: k in run.edge && e in run.edge[k]
  }

  lemma WalkedFlowed(run: PipelineRun, e: Entry)
    requires Settled(run) && Walked(run, e)
    ensures Flowed(run.graph.View(), run.plugins, run.recs, e.url)
  {
    hide Leaves, IsDataflow, Delivered, FailedAtSink, ProducedURLs, Built, Downs;
    if e in run.sourceEntries {
      assert HasURL(run.sourceEntries, e.url);
      var n, i :| n in run.recs && n in run.plugins && run.plugins[n].role.Source?
        && 0 <= i < |Leaves(run.plugins[n], run.recs[n])| && Leaves(run.plugins[n], run.recs[n])[i].url == e.url;
    } else {
      var k :| k in run.edge && e in run.edge[k];
      var i :| 0 <= i < |run.edge[k]| && run.edge[k][i] == e;
      assert Leaves(run.plugins[k.0], run.recs[k.0])[i].url == e.url;
    }
  }

  lemma FlowedWalked(run: PipelineRun, url: string) returns (e: Entry)
    requires Settled(run) && Flowed(run.graph.View(), run.plugins, run.recs, url)
    ensures Walked(run, e) && e.url == url
  {
    hide Leaves, IsDataflow, Delivered, FailedAtSink, ProducedURLs, Built, Downs;
    var n, i :| n in run.recs && n in run.plugins && (run.plugins[n].role.Source? || Downs(run.graph.View(), n) != {})
      && 0 <= i < |Leaves(run.plugins[n], run.recs[n])| && Leaves(run.plugins[n], run.recs[n])[i].url == url;
    if run.plugins[n].role.Source? {
      assert FromSource(run.plugins, run.recs, url);
      assert HasURL(run.sourceEntries, url);
      e :| e in run.sourceEntries && e.url == url;
    } else {
      var x :| x in Downs(run.graph.View(), n);
      e := run.edge[(n, x)][i];
      assert e in run.edge[(n, x)];
    }
  }

  /** When no node replaces its upstream, every URL that came along is counted: superseding originals loses none. */
  lemma NoURLLost(run: PipelineRun, t: Aggregate.Tally, e: Entry)
    requires Settled(run) && Tallied(run, t)
    requires forall n :: n in run.done ==> !run.plugins[n].discards
    requires e.url != "" && Walked(run, e)
    ensures Aggregate.Listed(t, Aggregate.ByURL(e.url))
  {
    hide Aggregate.Copies, Aggregate.Along, Aggregate.IsTally, Aggregate.SortedEdges, Aggregate.Champion;
    hide Aggregate.Rank;
    hide IsDataflow, Delivered, FailedAtSink, ProducedURLs, Built, PipelineRun.Balanced, EdgesStand;
    var marks := Aggregate.Marks(run.discarded, run.superseded, run.dropped);
    var keys :| Aggregate.Listing(run.edge, keys)
      && Aggregate.IsTally(t, Aggregate.Copies(run.sourceEntries + Aggregate.Along(run.edge, keys), marks));
    var c := e;
    if e in run.superseded {
      var k, carrier :| k in run.edge && carrier in run.edge[k] && carrier.url == e.url && carrier !in run.superseded;
      c := carrier;
    }
    AlongIs(run.edge, keys);
    var walk := run.sourceEntries + Aggregate.Along(run.edge, keys);
    var copies := Aggregate.Copies(walk, marks);
    Aggregate.CopiesAre(walk, marks);
    var i :| 0 <= i < |copies| && copies[i].entry == c;
    Aggregate.TallyIs(t, copies);
    assert copies[i].key == Aggregate.ByURL(e.url);
  }

  /** Whatever is counted by its URL came along. */
  lemma OnlyFlowed(run: PipelineRun, t: Aggregate.Tally, url: string)
    requires Settled(run) && Tallied(run, t) && Aggregate.Listed(t, Aggregate.ByURL(url))
    ensures Flowed(run.graph.View(), run.plugins, run.recs, url)
  {
    hide Aggregate.Copies, Aggregate.Along, Aggregate.IsTally, Aggregate.SortedEdges, Aggregate.Champion;
    hide Aggregate.Rank, Settled, Flowed;
    var marks := Aggregate.Marks(run.discarded, run.superseded, run.dropped);
    var keys :| Aggregate.Listing(run.edge, keys)
      && Aggregate.IsTally(t, Aggregate.Copies(run.sourceEntries + Aggregate.Along(run.edge, keys), marks));
    var walk := run.sourceEntries + Aggregate.Along(run.edge, keys);
    var copies := Aggregate.Copies(walk, marks);
    Aggregate.CopiesAre(walk, marks);
    Aggregate.TallyIs(t, copies);
    AlongIs(run.edge, keys);
    var j :| 0 <= j < |t.entries| && Aggregate.KeyOf(t.entries[j]) == Aggregate.ByURL(url);
    var c :| 0 <= c < |copies| && copies[c].entry == t.entries[j];
    WalkedFlowed(run, copies[c].entry);
  }

  /** The counted URLs are exactly all that left a source or a node with a consumer. */
  ghost predicate CountsAll(run: PipelineRun, t: Aggregate.Tally)
    reads run, run.graph
  {
    forall url: string :: url != "" ==>
      (Aggregate.Listed(t, Aggregate.ByURL(url)) <==> Flowed(run.graph.View(), run.plugins, run.recs, url))
  }

  lemma CountedURLs(run: PipelineRun, t: Aggregate.Tally)
    requires Settled(run) && Tallied(run, t)
    requires forall n :: n in run.done ==> !run.plugins[n].discards
    ensures CountsAll(run, t)
  {
    hide Settled, Tallied, Flowed, Walked, Aggregate.Listed;
    forall url: string | url != ""
      ensures Aggregate.Listed(t, Aggregate.ByURL(url)) <==> Flowed(run.graph.View(), run.plugins, run.recs, url)
    {
      if Aggregate.Listed(t, Aggregate.ByURL(url)) {
        OnlyFlowed(run, t, url);
      }
      if Flowed(run.graph.View(), run.plugins, run.recs, url) {
        var e := FlowedWalked(run, url);
        NoURLLost(run, t, e);
      }
    }
  }

  /** An entry some node received, and neither emitted nor refused. */
  ghost predicate StoppedShort(run: PipelineRun, e: Entry)
    reads run
  {
    exists n :: Strands(run.plugins, run.recs, run.calls, n, e)
  }

  /** An entry a node that replaces its upstream has received, or the original behind a fan-out. */
  ghost predicate StoodInFor(run: PipelineRun, e: Entry)
    reads run, run.graph
  {
    (exists n :: Replaces(run.plugins, run.calls, n, e)) || exists n :: run.Behind({}, n, e)
  }

  /** What an entry counts as. */
  ghost function CountedState(run: PipelineRun, e: Entry): State
    reads run, e
  {
    if StoppedShort(run, e) then Undecided else e.state
  }

  /** Some counted entry of this key counts as s. */
  ghost predicate SeenAs(run: PipelineRun, k: Aggregate.Key, s: State)
    reads *
  {
    || (exists e :: e in run.sourceEntries && CountsSo(run, e, k, s))
    || (exists x, e :: x in run.edge && e in run.edge[x] && CountsSo(run, e, k, s))
  }

  ghost predicate CountsSo(run: PipelineRun, e: Entry, k: Aggregate.Key, s: State)
    reads run, run.graph, e
  {
    !StoodInFor(run, e) && Aggregate.KeyOf(e) == k && CountedState(run, e) == s
  }

  /** What the entry of a copy counts as. */
  ghost predicate CountsAs(run: PipelineRun, c: Aggregate.Copy)
    reads run, run.graph, c.entry
  {
    && Walked(run, c.entry) && !StoodInFor(run, c.entry)
    && c.key == Aggregate.KeyOf(c.entry) && c.state == CountedState(run, c.entry)
  }

  /**
    What a tally of a run is of: the entries on the edges and from the sources
    that nothing stands in for, with the state they ended up in, or as
    undecided if they stopped short.
   */
  lemma CountedStates(run: PipelineRun, t: Aggregate.Tally) returns (copies: seq<Aggregate.Copy>)
    requires Settled(run) && Tallied(run, t)
    ensures Aggregate.IsTally(t, copies)
    ensures forall i :: 0 <= i < |copies| ==> CountsAs(run, copies[i])
    ensures forall e :: Walked(run, e) && !StoodInFor(run, e) ==> Aggregate.Copied(copies, e)
  {
    hide Aggregate.Copies, Aggregate.Along, Aggregate.IsTally, Aggregate.SortedEdges, Aggregate.Champion;
    hide Aggregate.Rank, Aggregate.Copied;
    hide IsDataflow, Delivered, FailedAtSink, ProducedURLs, Built, EdgesStand, PipelineRun.Live, PipelineRun.Discards;
    hide PipelineRun.Balanced, PipelineRun.Supersedes, StoppedShort, StoodInFor;
    var marks := Aggregate.Marks(run.discarded, run.superseded, run.dropped);
    var keys :| Aggregate.Listing(run.edge, keys)
      && Aggregate.IsTally(t, Aggregate.Copies(run.sourceEntries + Aggregate.Along(run.edge, keys), marks));
    var walk := run.sourceEntries + Aggregate.Along(run.edge, keys);
    copies := Aggregate.Copies(walk, marks);
    Aggregate.CopiesAre(walk, marks);
    AlongIs(run.edge, keys);
    DroppedIff(run);
    StoodInIff(run);
  }

  /**
    The counters of a run, with no order of states assumed: an entry whose copies
    ended up in several states counts once, as accepted if one of them was, else
    as rejected if one was, else as failed, and as undecided otherwise.
   */
  lemma CountedOutcomes(run: PipelineRun, t: Aggregate.Tally) returns (copies: seq<Aggregate.Copy>)
    requires Settled(run) && Tallied(run, t)
    ensures t.accepted == |Aggregate.KeysCounting(copies, Accepted)|
    ensures t.rejected == |Aggregate.KeysCounting(copies, Rejected)|
    ensures t.failed == |Aggregate.KeysCounting(copies, Failed)|
    ensures t.undecided == |Aggregate.KeysCounting(copies, Undecided)|
    ensures forall k, s :: Aggregate.Seen(copies, k, s) <==> SeenAs(run, k, s)
  {
    hide *;
    copies := CountedStates(run, t);
    Aggregate.TallyCounts(t, copies);
    forall k, s ensures Aggregate.Seen(copies, k, s) <==> SeenAs(run, k, s) {
      SeenIff(run, copies, k, s);
    }
  }

  lemma SeenIff(run: PipelineRun, copies: seq<Aggregate.Copy>, k: Aggregate.Key, s: State)
    requires forall i :: 0 <= i < |copies| ==> CountsAs(run, copies[i])
    requires forall e :: Walked(run, e) && !StoodInFor(run, e) ==> Aggregate.Copied(copies, e)
    ensures Aggregate.Seen(copies, k, s) <==> SeenAs(run, k, s)
  {
    hide StoodInFor, CountedState, Aggregate.KeyOf;
    if Aggregate.Seen(copies, k, s) {
      var i :| 0 <= i < |copies| && copies[i].key == k && copies[i].state == s;
      assert CountsAs(run, copies[i]) && CountsSo(run, copies[i].entry, k, s);
    }
    if SeenAs(run, k, s) {
      if e :| e in run.sourceEntries && CountsSo(run, e, k, s) {
        CopySeen(run, copies, e, k, s);
      } else {
        var x, e :| x in run.edge && e in run.edge[x] && CountsSo(run, e, k, s);
        CopySeen(run, copies, e, k, s);
      }
    }
  }

  lemma CopySeen(run: PipelineRun, copies: seq<Aggregate.Copy>, e: Entry, k: Aggregate.Key, s: State)
    requires forall i :: 0 <= i < |copies| ==> CountsAs(run, copies[i])
    requires Aggregate.Copied(copies, e) && CountsSo(run, e, k, s)
    ensures Aggregate.Seen(copies, k, s)
  {
    hide StoodInFor, CountedState, Aggregate.KeyOf, Walked;
    var i :| 0 <= i < |copies| && copies[i].entry == e;
    assert CountsAs(run, copies[i]);
  }

  lemma DroppedIff(run: PipelineRun)
    requires run.Balanced()
    ensures forall e :: e in run.dropped <==> StoppedShort(run, e)
  {
    hide EdgesMatch, CallsMatch, SourcesMatch, StrandedBy;
  }

  lemma StoodInIff(run: PipelineRun)
    requires run.Balanced() && run.Supersedes({})
    ensures forall e :: e in run.discarded || e in run.superseded <==> StoodInFor(run, e)
  {
    hide EdgesMatch, CallsMatch, SourcesMatch, DropsMatch, FansOut;
  }

  lemma {:induction false} AlongIs(edges: map<Edge, seq<Entry>>, keys: seq<Edge>)
    ensures forall k, e :: k in keys && k in edges && e in edges[k] ==> e in Aggregate.Along(edges, keys)
    ensures forall e :: e in Aggregate.Along(edges, keys) ==> exists k :: k in edges && e in edges[k]
  {
    if keys != [] {
      var n := |keys| - 1;
      AlongIs(edges, keys[..n]);
      assert keys == keys[..n] + [keys[n]];
    }
  }
}
