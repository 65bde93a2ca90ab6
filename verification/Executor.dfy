/**
  The state of a run (the local variables of Run in
  internal/executor/executor.go) over shared, mutable entries, and what every
  node's turn keeps of it.
 */
module Executor {
  import opened Graph
  import opened Entries
  import opened Dataflow
  import opened Ledger
  import opened Merging
  import opened NodeTurn

  ghost predicate FansOut(d: Dag, n: NodeID) {
    exists a, b :: a != b && a in Downs(d, n) && b in Downs(d, n)
  }

  function Lookup(edge: map<Edge, seq<Entry>>, k: Edge): seq<Entry> {
    if k in edge then edge[k] else []
  }

  /** A node's turn: what it was called with, and how its plugin left it. */
  datatype Turn = Turn(n: NodeID, upstream: seq<Entry>, handed: seq<Item>, out: seq<Item>, panicked: bool)

  /** The clones made for each of several consumers. */
  datatype Fan = Fan(downs: seq<NodeID>, copies: seq<seq<Entry>>)

  /** The local variables of Executor.Run. `done`, `recs`, `calls` and `known` are history: they record, and decide
    nothing. */
  class PipelineRun {
    const graph: Graph
    const plugins: map<NodeID, Instance>

    var edge: map<Edge, seq<Entry>>
    var sourceEntries: seq<Entry>
    var discarded: set<Entry>
    var superseded: set<Entry>
    var dropped: set<Entry>
    var failedURLs: set<string>
    var deliveredURLs: set<string>
    var producedBy: map<NodeID, seq<Entry>>

    ghost var done: set<NodeID>
    ghost var recs: map<NodeID, Record>
    ghost var calls: map<NodeID, Call>
    ghost var known: set<Entry>
    ghost var outputs: seq<Entry>   // what the last node to run produced

    constructor (graph: Graph, plugins: map<NodeID, Instance>)
      requires graph.Valid()
      ensures this.graph == graph && this.plugins == plugins
      ensures Valid() && done == {} && known == {}
    {
      this.graph, this.plugins := graph, plugins;
      edge, sourceEntries := map[], [];
      discarded, superseded, dropped := {}, {}, {};
      failedURLs, deliveredURLs, producedBy := {}, {}, map[];
      done, recs, calls, known, outputs := {}, map[], map[], {}, [];
      new;
      Fresh();
    }

    /** Before any node has run. */
    lemma Fresh()
      requires graph.Valid() && done == {} && known == {} && recs == map[] && calls == map[] && outputs == []
      requires edge == map[] && sourceEntries == [] && producedBy == map[]
      requires discarded == superseded == dropped == {} && failedURLs == deliveredURLs == {}
      ensures Valid()
    {
      hide Views, Leaves, Fits, FansOut, Downs, Built, URLsMatch, StrandedBy;
    }

    ghost function OnRecord(): Books
      reads this
    {
      Books(edge, sourceEntries, dropped, discarded, calls)
    }

    /** What the counters will be computed from is what the records say. */
    ghost predicate Balanced()
      reads this
    {
      InOrder(plugins, recs, OnRecord())
    }

    /** The entries on this edge wait for a node that has not run. */
    ghost predicate Waiting(k: Edge)
      reads this
    {
      k in edge && k.1 !in done
    }

    /** `storing` is the node whose outputs are about to be put on its edges, if there is one. */
    ghost predicate Shape(storing: set<NodeID>)
      reads this, graph
    {
      && graph.Valid() && recs.Keys == done
      && done <= graph.nodes.Keys && done <= plugins.Keys
      && (forall n :: n in done ==> forall u :: u in graph.nodes[n].upstreams ==> u in done)
      && (forall k :: k in edge ==> k.0 in done && k.1 in Downs(graph.View(), k.0))
      && (forall u, n :: u in done - storing && n in Downs(graph.View(), u) ==>
            (u, n) in edge || Leaves(plugins[u], recs[u]) == [])
      && (forall n :: n in producedBy ==> n in done && plugins[n].role.Processor?)
      && (forall n :: n in done && plugins[n].role.Processor? ==> n in producedBy)
    }

    ghost predicate Known()
      reads this
    {
      && (forall k, e :: k in edge && e in edge[k] ==> e in known)
      && (forall n, e :: n in producedBy && e in producedBy[n] ==> e in known)
      && superseded <= known
    }

    /** Branch isolation: no entry waits on two edges, and none that waits has been superseded by clones. */
    ghost predicate Isolated()
      reads this
    {
      && (forall j, k, e :: Waiting(j) && Waiting(k) && j != k && e in edge[j] ==> e !in edge[k])
      && (forall k, e :: Waiting(k) && e in edge[k] ==> e !in superseded)
    }

    /** Waiting entries, and the originals behind a fan-out, stand as their producer left them. */
    ghost predicate Untouched(storing: set<NodeID>)
      reads this, graph, known
      requires Shape(storing) && Known()
    {
      && (forall k :: Waiting(k) ==> Views(edge[k]) == Leaves(plugins[k.0], recs[k.0]))
      && (forall n :: n in producedBy && n !in storing && FansOut(graph.View(), n) ==>
            (forall e :: e in producedBy[n] ==> e in superseded)
            && Views(producedBy[n]) == Leaves(plugins[n], recs[n]))
    }

    /** The records describe the nodes run so far, and the URL ledgers are what the records say. */
    ghost predicate Recorded(storing: set<NodeID>)
      reads this, graph
      requires Shape(storing)
    {
      && (forall n :: n in done ==> Fits(graph.View(), plugins, recs, n))
      && deliveredURLs == Delivered(plugins, recs) && failedURLs == FailedAtSink(plugins, recs)
      && (forall n :: n in producedBy ==>
            && |producedBy[n]| == |Leaves(plugins[n], recs[n])|
            && forall i :: 0 <= i < |producedBy[n]| ==> producedBy[n][i].url == Leaves(plugins[n], recs[n])[i].url)
    }

    /** Some entry on an edge, not itself superseded, carries this URL. */
    ghost predicate Carried(url: string)
      reads this
    {
      exists k, c :: k in edge && c in edge[k] && c.url == url && c !in superseded
    }

    /** Superseding originals loses no URL. */
    ghost predicate Live()
      reads this
    {
      forall e :: e in superseded && e.url != "" ==> Carried(e.url)
    }

    /** Entries are only ever discarded by nodes that replace their upstream. */
    ghost predicate Discards()
      reads this
    {
      (forall n :: n in done && n in plugins ==> !plugins[n].discards) ==> discarded == {}
    }

    /** The originals behind a fan-out, and no other entries, have been superseded by their clones. */
    ghost predicate Supersedes(storing: set<NodeID>)
      reads this, graph
    {
      && calls.Keys <= done
      && (forall e :: e in superseded ==> exists n :: Behind(storing, n, e))
      && forall n :: n in calls && n !in storing && FansOut(graph.View(), n) ==>
        forall e :: e in calls[n].produced ==> e in superseded
    }

    ghost predicate Behind(storing: set<NodeID>, n: NodeID, e: Entry)
      reads this, graph
    {
      n in calls && n !in storing && FansOut(graph.View(), n) && e in calls[n].produced
    }

    ghost predicate Valid()
      reads this, graph, known
    {
      Shape({}) && Known() && Isolated() && Live() && Discards() && Untouched({}) && Recorded({}) && Balanced() &&
        Supersedes({})
    }

    /** What a node finds on the edge from an upstream that has run. */
    lemma EdgeView(u: NodeID, n: NodeID)
      requires Shape({}) && Known() && Untouched({}) && n !in done && u in done && n in Downs(graph.View(), u)
      ensures Views(Lookup(edge, (u, n))) == Leaves(plugins[u], recs[u])
    {
      hide Views, Leaves;
      NoViews();
      if (u, n) in edge { assert Waiting((u, n)); }
    }

    /** collectUpstream: what waits for this node, */
    method WaitingSlices(n: NodeID) returns (slices: seq<seq<Entry>>)
      requires Shape({}) && Known() && Untouched({}) && n in graph.nodes && n !in done
      requires forall u :: u in graph.nodes[n].upstreams ==> u in done
      ensures Views(Flatten(slices)) == Gather(graph.nodes[n].upstreams, plugins, recs)
      ensures |slices| == |graph.nodes[n].upstreams|
      ensures forall j :: 0 <= j < |slices| ==> slices[j] == Lookup(edge, (graph.nodes[n].upstreams[j], n))
    {
      hide Built, FansOut, Views, Merge, Leaves, Gather, Flatten, Untouched, Known;
      var ups := graph.nodes[n].upstreams;
      slices := [];
      FlattenEmpty(plugins, recs);
      for k := 0 to |ups|
        invariant |slices| == k
        invariant forall j :: 0 <= j < k ==> slices[j] == Lookup(edge, (ups[j], n))
        invariant Views(Flatten(slices)) == Gather(ups[..k], plugins, recs)
      {
        var slice := Lookup(edge, (ups[k], n));
        assert ups[k] in ups;
        EdgeView(ups[k], n);
        FlattenSnoc(slices, slice);
        GatherSnoc(ups, k, plugins, recs);
        slices := slices + [slice];
      }
      assert ups[..|ups|] == ups;
    }

    /** merged. */
    method CollectUpstream(n: NodeID) returns (upstream: seq<Entry>)
      requires Shape({}) && Known() && Untouched({}) && n in graph.nodes && n in plugins && n !in done &&
        !Declines(plugins[n])
      requires forall u :: u in graph.nodes[n].upstreams ==> u in done
      ensures Called(n, upstream)
    {
      hide Views, Merge, Gather, Flatten, Untouched, Known;
      var slices := WaitingSlices(n);
      ghost var gathered := Views(Flatten(slices));
      upstream := MergeAndDedup(slices);
      assert Views(Flatten(slices)) == gathered;
      forall e | e in upstream ensures exists u :: Waiting((u, n)) && e in edge[(u, n)] {
        WaitingIn(n, slices, e);
      }
    }

    lemma WaitingIn(n: NodeID, slices: seq<seq<Entry>>, e: Entry)
      requires n in graph.nodes && n !in done && |slices| == |graph.nodes[n].upstreams| && e in Flatten(slices)
      requires forall j :: 0 <= j < |slices| ==> slices[j] == Lookup(edge, (graph.nodes[n].upstreams[j], n))
      ensures exists u :: Waiting((u, n)) && e in edge[(u, n)]
    {
      hide Flatten;
      InFlatten(slices);
      var j :| 0 <= j < |slices| && e in slices[j];
      assert Waiting((graph.nodes[n].upstreams[j], n));
    }

    /** The outputs of n, not yet on its edges: nobody else can reach them. */
    ghost predicate Ready(n: NodeID)
      reads this, graph, known
      requires Shape({n}) && Known()
    {
      && n in done && (forall e :: e in outputs ==> e in known)
      && Views(outputs) == Leaves(plugins[n], recs[n]) && URLsMatch(outputs, Leaves(plugins[n], recs[n]))
      && (forall k :: k in edge ==> k.0 != n)
      && (forall k, e :: Waiting(k) && e in edge[k] ==> e !in outputs)
      && (forall e :: e in outputs ==> e !in superseded)
      && (n in producedBy ==> producedBy[n] == outputs)
    }

    ghost predicate ValidBut(n: NodeID)
      reads this, graph, known
    {
      Shape({n}) && Known() && Isolated() && Live() && Discards() && Untouched({n}) && Recorded({n}) && Ready(n) &&
        Balanced()
      && Supersedes({n}) && n in calls && calls[n].produced == outputs
    }

    /** What a node's turn adds to the run's variables; `rec` is its record. */
    method Account(n: NodeID, upstream: seq<Entry>, produced: seq<Entry>, ghost rec: Record)
      requires n in plugins
      modifies this`sourceEntries, this`discarded, this`dropped, this`producedBy, this`failedURLs, this`deliveredURLs,
        this`done, this`recs, this`calls, this`known, this`outputs
      ensures OnRecord() == AfterTurn(old(OnRecord()), plugins[n], n, Call(upstream, produced), Views(upstream))
      ensures discarded == old(discarded) + if plugins[n].discards then Members(upstream) else {}
      ensures producedBy == if plugins[n].role.Processor? then old(producedBy)[n := produced] else old(producedBy)
      ensures failedURLs == old(failedURLs) + if plugins[n].role.Sink? then FailedAfter(Views(upstream)) else {}
      ensures deliveredURLs == old(deliveredURLs) + if plugins[n].role.Sink? then DeliveredAfter(Views(upstream))
        else {}
      ensures done == old(done) + {n} && recs == old(recs)[n := rec] && outputs == produced
      ensures known == old(known) + Members(produced)
    {
      hide Views, FailedAfter, DeliveredAfter, AfterTurn, StrandedBy, Stranded, Members;
      Remember(n, rec, Call(upstream, produced));
      sourceEntries := sourceEntries + if plugins[n].role.Source? then produced else [];
      discarded := discarded + if plugins[n].discards then Members(upstream) else {};
      producedBy := if plugins[n].role.Processor? then producedBy[n := produced] else producedBy;
      NoteDropped(plugins[n], upstream, produced);
      NoteSink(plugins[n], upstream);
      StrandedIs(upstream, produced);
      BooksAfter(old(OnRecord()), OnRecord(), plugins[n], n, Call(upstream, produced), Views(upstream));
    }

    ghost method Remember(n: NodeID, rec: Record, c: Call)
      modifies this`done, this`recs, this`calls, this`known, this`outputs
      ensures done == old(done) + {n} && recs == old(recs)[n := rec] && calls == old(calls)[n := c]
      ensures outputs == c.produced && known == old(known) + Members(c.produced)
    {
      done, recs, calls := done + {n}, recs[n := rec], calls[n := c];
      known, outputs := known + Members(c.produced), c.produced;
    }

    method NoteDropped(inst: Instance, upstream: seq<Entry>, produced: seq<Entry>)
      modifies this`dropped
      ensures dropped == old(dropped) + if inst.role.Sink? then {} else Stranded(upstream, produced)
    {
      if !inst.role.Sink? {
        var dead := DeadEnds(upstream, produced);
        dropped := dropped + dead;
      }
    }

    method NoteSink(inst: Instance, upstream: seq<Entry>)
      modifies this`failedURLs, this`deliveredURLs
      ensures failedURLs == old(failedURLs) + if inst.role.Sink? then FailedAfter(Views(upstream)) else {}
      ensures deliveredURLs == old(deliveredURLs) + if inst.role.Sink? then DeliveredAfter(Views(upstream)) else {}
    {
      hide Views, FailedAfter, DeliveredAfter;
      if inst.role.Sink? {
        var failed, delivered := SinkURLs(upstream);
        LedgerView(upstream);
        failedURLs, deliveredURLs := failedURLs + failed, deliveredURLs + delivered;
      }
    }

    /** It is n's turn, and these entries are what waited for it. */
    ghost predicate Called(n: NodeID, upstream: seq<Entry>)
      reads *
    {
      && n in graph.nodes && n in plugins && n !in done && !Declines(plugins[n])
      && (forall u :: u in graph.nodes[n].upstreams ==> u in done)
      && Views(upstream) == Merge(Gather(graph.nodes[n].upstreams, plugins, recs))
      && (forall e :: e in upstream ==> exists u :: Waiting((u, n)) && e in edge[(u, n)])
    }

    /** What calling a node changes: only the entries handed to it, and its own part of the records. */
    twostate predicate Ran(turn: Turn)
      reads *
    {
      var Turn(n, upstream, handed, out, panicked) := turn;
      && n in graph.nodes && n in plugins
      && (forall e :: e in outputs ==> e in upstream || fresh(e))
      && done == old(done) + {n} && edge == old(edge) && superseded == old(superseded)
      && recs == old(recs)[n := Record(old(Views(upstream)), handed, out, Views(upstream), panicked)]
      && Views(outputs) == Leaves(plugins[n], recs[n])
      && handed == Handed(plugins[n], old(Views(upstream)))
      && (plugins[n].role.Sink? && !panicked ==> SameURLs(out, handed))
      && producedBy == (if plugins[n].role.Processor? then old(producedBy)[n := outputs] else old(producedBy))
      && failedURLs == old(failedURLs) + (if plugins[n].role.Sink? then FailedAfter(Views(upstream)) else {})
      && deliveredURLs == old(deliveredURLs) + (if plugins[n].role.Sink? then DeliveredAfter(Views(upstream)) else {})
      && known == old(known) + Members(outputs)
      && discarded == old(discarded) + (if plugins[n].discards then Members(upstream) else {})
      && (forall e :: e in old(known) && e !in upstream ==> e.View() == old(e.View()))
      && graph.View() == old(graph.View()) && graph.nodes == old(graph.nodes)
    }

    twostate predicate Turned(turn: Turn)
      reads *
    {
      old(Called(turn.n, turn.upstream)) && Ran(turn)
    }

    /** What calling a node adds to what the counters will be computed from. */
    twostate predicate Noted(turn: Turn)
      reads *
    {
      && turn.n in plugins && turn.n in recs
      && OnRecord() ==
        AfterTurn(old(OnRecord()), plugins[turn.n], turn.n, Call(turn.upstream, outputs), recs[turn.n].after)
    }

    twostate lemma TurnBalanced(turn: Turn)
      requires old(Shape({}) && Balanced()) && Turned(turn) && Noted(turn)
      ensures Balanced()
    {
      hide Views, Leaves, Gather, Merge, Handed, FailedAfter, DeliveredAfter, InOrder, Built, Downs, Members;
      hide SameURLs, AfterTurn, StrandedBy;
      var n, c := turn.n, Call(turn.upstream, outputs);
      URLsNow(turn.upstream);
      ViewsMatch(turn.upstream, recs[n].after);
      ViewsMatch(outputs, Leaves(plugins[n], recs[n]));
      forall e | e in turn.upstream ensures exists u :: (u, n) in old(edge) && e in old(edge)[(u, n)] {
        var u :| old(Waiting((u, n)) && e in edge[(u, n)]);
      }
      TurnInOrder(plugins, old(recs), old(OnRecord()), n, recs[n], c);
    }

    twostate lemma TurnShape(turn: Turn)
      requires old(Shape({})) && Turned(turn)
      ensures Shape({turn.n})
    {
      hide Built, FansOut, Views, Leaves, Gather, Merge, Handed, FailedAfter, DeliveredAfter, Members, SameURLs;
    }

    twostate lemma TurnKnown(turn: Turn)
      requires old(Known()) && Turned(turn)
      ensures Known()
    {
      hide Built, FansOut, Views, Leaves, Gather, Merge, Handed, FailedAfter, DeliveredAfter;
    }

    twostate lemma TurnIsolated(turn: Turn)
      requires old(Isolated() && Live() && Discards()) && Turned(turn)
      ensures Isolated() && Live() && Discards()
    {
      hide Views, Leaves, Gather, Merge, Handed, FailedAfter, DeliveredAfter;
    }

    /** Entries that wait elsewhere are not among those the node was handed. */
    twostate lemma TurnUntouched(turn: Turn)
      requires old(Shape({}) && Known() && Isolated() && Untouched({})) && Turned(turn)
      requires Shape({turn.n}) && Known()
      ensures Untouched({turn.n})
    {
      hide Built, Downs, FansOut, Views, Leaves, Gather, Merge, Handed, FailedAfter, DeliveredAfter;
      forall k | Waiting(k) ensures Views(edge[k]) == Leaves(plugins[k.0], recs[k.0]) {
        forall e | e in edge[k] ensures e in old(known) && e !in turn.upstream {
        }
        SameValues(edge[k]);
      }
      forall m | m in producedBy && m != turn.n && FansOut(graph.View(), m)
        ensures Views(producedBy[m]) == Leaves(plugins[m], recs[m])
      {
        forall e | e in producedBy[m] ensures e in old(known) && e !in turn.upstream {
        }
        SameValues(producedBy[m]);
      }
    }

    twostate lemma TurnFits(turn: Turn)
      requires old(Shape({}) && Recorded({})) && Turned(turn)
      requires Shape({turn.n})
      ensures forall m :: m in done ==> Fits(graph.View(), plugins, recs, m)
    {
      hide Views, Leaves, Gather, Merge, Handed, FailedAfter, DeliveredAfter, Delivered, FailedAtSink, Built;
      hide Members, SameURLs;
      forall m | m in done ensures Fits(graph.View(), plugins, recs, m) {
        GatherStable(graph.nodes[m].upstreams, plugins, old(recs), turn.n, recs[turn.n]);
        SameURLsAnyway(turn.upstream);
      }
    }

    twostate lemma TurnRecorded(turn: Turn)
      requires old(Shape({}) && Known() && Recorded({})) && Turned(turn)
      requires Shape({turn.n})
      ensures Recorded({turn.n})
    {
      hide Views, Leaves, Gather, Merge, Handed, FailedAfter, DeliveredAfter, Delivered, FailedAtSink, Built;
      hide Members, SameURLs, Fits, Downs;
      LedgersStep(plugins, old(recs), turn.n, recs[turn.n]);
      TurnFits(turn);
    }

    twostate lemma TurnReady(turn: Turn)
      requires old(Shape({}) && Known() && Isolated()) && Turned(turn)
      requires Shape({turn.n}) && Known()
      ensures Ready(turn.n)
    {
      hide Views, Leaves, Gather, Merge, Handed, FailedAfter, DeliveredAfter, Built;
      ViewsMatch(outputs, Leaves(plugins[turn.n], recs[turn.n]));
    }

    twostate lemma TurnSupersedes(turn: Turn)
      requires old(Shape({}) && Supersedes({})) && Turned(turn) && Noted(turn)
      ensures Supersedes({turn.n}) && turn.n in calls && calls[turn.n].produced == outputs
    {
      hide Views, Leaves, Gather, Merge, Handed, FailedAfter, DeliveredAfter, Built, FansOut, Downs, Members;
      hide SameURLs, StrandedBy;
      assert calls == old(calls)[turn.n := Call(turn.upstream, outputs)];
      forall e | e in superseded ensures exists n :: Behind({turn.n}, n, e) {
        var n :| old(Behind({}, n, e));
        assert Behind({turn.n}, n, e);
      }
    }

    twostate lemma TurnValid(turn: Turn)
      requires old(Valid()) && Turned(turn) && Noted(turn)
      ensures ValidBut(turn.n)
    {
      hide Turned, Noted, Balanced, Supersedes, Shape, Known, Isolated, Live, Discards, Untouched, Recorded, Ready;
      TurnShape(turn);
      TurnKnown(turn);
      TurnIsolated(turn);
      TurnUntouched(turn);
      TurnRecorded(turn);
      TurnReady(turn);
      TurnBalanced(turn);
      TurnSupersedes(turn);
    }

    /** The turn of a node that is called: runs it and does the bookkeeping, short of storing the outputs. */
    method CallNode(n: NodeID, upstream: seq<Entry>) returns (produced: seq<Entry>, ghost turn: Turn)
      requires n in plugins && n in graph.nodes && !Declines(plugins[n])
      modifies this, set e | e in upstream
      ensures turn.n == n && turn.upstream == upstream && outputs == produced && Ran(turn) && Noted(turn)
    {
      hide Views, Leaves, Handed, FailedAfter, DeliveredAfter, Members, Stranded, StrandedBy, AfterTurn, SameURLs;
      hide Declines, Built;
      ghost var handed, out, panicked;
      produced, handed, out, panicked := RunNode(plugins[n], upstream);
      ghost var rec := Record(old(Views(upstream)), handed, out, Views(upstream), panicked);
      LeavesIgnoresAfter(plugins[n], rec);
      Account(n, upstream, produced, rec);
      turn := Turn(n, upstream, handed, out, panicked);
    }

    method TakeTurn(n: NodeID, upstream: seq<Entry>) returns (produced: seq<Entry>)
      requires Valid() && Called(n, upstream)
      modifies this, known
      ensures ValidBut(n) && outputs == produced && done == old(done) + {n}
      ensures graph.Valid() && (forall k :: k in edge ==> k.0 != n) && (forall e :: e in produced ==> e in known)
      ensures forall e :: e in known ==> e in old(known) || fresh(e)
    {
      hide Views, Leaves, Gather, Merge, Handed, FailedAfter, DeliveredAfter, Delivered, FailedAtSink;
      hide Shape, Isolated, Live, Discards, Untouched, Recorded, Ready, ValidBut, Balanced, Supersedes, Noted;
      ghost var turn;
      produced, turn := CallNode(n, upstream);
      TurnValid(turn);
      ReadyToStore(n);
    }

    lemma ReadyToStore(n: NodeID)
      requires ValidBut(n)
      ensures graph.Valid() && (forall k :: k in edge ==> k.0 != n) && (forall e :: e in outputs ==> e in known)
    {
    }

    /** What storing a node's outputs leaves alone. */
    twostate predicate Kept(n: NodeID)
      reads *
    {
      && done == old(done) && recs == old(recs) && producedBy == old(producedBy) && outputs == old(outputs)
      && deliveredURLs == old(deliveredURLs) && failedURLs == old(failedURLs) && discarded == old(discarded)
      && sourceEntries == old(sourceEntries) && dropped == old(dropped) && calls == old(calls)
      && graph.View() == old(graph.View()) && graph.nodes == old(graph.nodes)
      && (forall e :: e in old(known) ==> e.View() == old(e.View()))
      && (forall e :: e in outputs ==> e in old(known)) && old(known) <= known
    }

    /** What storing a node's outputs changes: only the node's own edges, and what is superseded. */
    twostate predicate Stored(n: NodeID)
      reads *
    {
      Kept(n) && OnEdges(n, old(edge)) &&
        if FansOut(graph.View(), n) then Cloned(n, old(known), old(superseded)) else Shared(n, old(superseded))
    }

    /** n's outputs, and nothing else, have been added to the edges there were. */
    ghost predicate OnEdges(n: NodeID, before: map<Edge, seq<Entry>>)
      reads *
    {
      && (forall k :: k in before ==> k in edge && edge[k] == before[k])
      && (forall k :: k in edge ==> k in before || (k.0 == n && k.1 in Downs(graph.View(), n)))
      && (forall x :: x in Downs(graph.View(), n) ==> (n, x) in edge && Views(edge[(n, x)]) == Views(outputs))
      && (forall x, e :: x in Downs(graph.View(), n) && e in edge[(n, x)] ==> e in known)
    }

    ghost predicate Shared(n: NodeID, before: set<Entry>)
      requires forall x :: x in Downs(graph.View(), n) ==> (n, x) in edge
      reads *
    {
      && superseded == before
      && forall x :: x in Downs(graph.View(), n) ==> edge[(n, x)] == outputs
    }

    ghost predicate Cloned(n: NodeID, knownBefore: set<Entry>, before: set<Entry>)
      requires forall x :: x in Downs(graph.View(), n) ==> (n, x) in edge
      reads *
    {
      var downs := Downs(graph.View(), n);
      && superseded == before + Members(outputs)
      && (forall x, e :: x in downs && e in edge[(n, x)] ==> e !in knownBefore)
      && (forall x, y, e :: x in downs && y in downs && x != y && e in edge[(n, x)] ==> e !in edge[(n, y)])
    }

    /** storeOutputs: the produced entries themselves to a sole consumer, clones to each of several. */
    method StoreOutputs(n: NodeID, produced: seq<Entry>)
      requires graph.Valid() && (forall k :: k in edge ==> k.0 != n)
      requires outputs == produced && forall e :: e in produced ==> e in known
      modifies this`edge, this`superseded, this`known
      ensures Stored(n)
      ensures forall e :: e in known ==> e in old(known) || fresh(e)
    {
      hide Views, Built, FansOut, Downs, Members, Flatten;
      var downs := graph.Downstreams(n);
      FansOutIff(graph.View(), n, downs);
      if |downs| > 1 {
        var copies := CloneEach(produced, |downs|);
        PutClones(n, produced, downs, copies);
      } else {
        PutSole(n, produced, downs);
      }
    }

    method PutSole(n: NodeID, produced: seq<Entry>, downs: seq<NodeID>)
      requires |downs| <= 1 && forall x :: x in downs <==> x in Downs(graph.View(), n)
      requires outputs == produced && (forall e :: e in produced ==> e in known) && forall k :: k in edge ==> k.0 != n
      modifies this`edge
      ensures OnEdges(n, old(edge)) && Shared(n, old(superseded))
    {
      hide Views, Downs;
      if |downs| == 1 {
        edge := edge[(n, downs[0]) := produced];
      }
      assert forall x :: x in Downs(graph.View(), n) ==> x == downs[0];
    }

    method PutClones(n: NodeID, produced: seq<Entry>, downs: seq<NodeID>, copies: seq<seq<Entry>>)
      requires |copies| == |downs| && Distinct(downs) && (forall x :: x in downs <==> x in Downs(graph.View(), n))
      requires outputs == produced && (forall e :: e in produced ==> e in known) && forall k :: k in edge ==> k.0 != n
      requires forall i :: 0 <= i < |copies| ==> Views(copies[i]) == Views(produced)
      requires forall i, e :: 0 <= i < |copies| && e in copies[i] ==> e !in known
      requires forall i, j, e :: 0 <= i < |copies| && 0 <= j < |copies| && i != j && e in copies[i] ==> e !in copies[j]
      modifies this`edge, this`superseded, this`known
      ensures OnEdges(n, old(edge)) && Cloned(n, old(known), old(superseded))
      ensures old(known) <= known && forall e :: e in known ==>
        e in old(known) || exists i :: 0 <= i < |copies| && e in copies[i]
    {
      hide Views, Downs, PutAll, IndexOf, Flatten, Members;
      InFlatten(copies);
      ghost var before := known;
      edge := PutAll(edge, n, downs, copies);
      superseded := superseded + Members(produced);
      known := known + Members(Flatten(copies));
      ClonesPut(n, downs, copies, edge, before);
      assert forall x :: x in Downs(graph.View(), n) ==> x in downs;
    }

    twostate lemma StoredShape(n: NodeID)
      requires old(Shape({n}) && Known() && Ready(n)) && Stored(n)
      ensures Shape({}) && Known()
    {
      hide Built, Downs, Views, Leaves, FansOut;
    }

    /** What a node puts on its edges waits nowhere else, has not been superseded, and is apart from edge to edge. */
    twostate predicate Apart(n: NodeID)
      reads *
    {
      var downs := Downs(graph.View(), n);
      && (forall x, k, e :: x in downs && k in old(edge) && k.1 !in done && e in old(edge)[k] ==>
        e !in Lookup(edge, (n, x)))
      && (forall x, e :: x in downs && e in Lookup(edge, (n, x)) ==> e !in superseded)
      && (forall k, e :: k in old(edge) && k.1 !in done && e in old(edge)[k] ==> e !in superseded)
      && (forall x, y, e :: x in downs && y in downs && x != y && e in Lookup(edge, (n, x)) ==>
        e !in Lookup(edge, (n, y)))
    }

    twostate lemma ApartFan(n: NodeID)
      requires old(Shape({n}) && Known() && Isolated() && Ready(n)) && Kept(n) && OnEdges(n, old(edge)) &&
        Cloned(n, old(known), old(superseded))
      ensures Apart(n)
    {
      hide Views, Leaves, Downs, Shape, FansOut;
      var before := old(known);
      forall k, e | k in old(edge) && k.1 !in done && e in old(edge)[k] ensures e in before && e !in superseded {
        assert old(Waiting(k));
      }
      forall x, e | x in Downs(graph.View(), n) && e in Lookup(edge, (n, x)) ensures e !in before && e !in superseded {
        assert e in edge[(n, x)];
      }
      forall x, k, e | x in Downs(graph.View(), n) && k in old(edge) && k.1 !in done && e in old(edge)[k]
        ensures e !in Lookup(edge, (n, x))
      {
        assert e in before;
        assert e in Lookup(edge, (n, x)) ==> e !in before;
      }
      forall x, y, e | x in Downs(graph.View(), n) && y in Downs(graph.View(), n) && x != y && e in Lookup(edge, (n, x))
        ensures e !in Lookup(edge, (n, y))
      {
        assert e in edge[(n, x)] && Lookup(edge, (n, y)) == edge[(n, y)];
      }
    }

    twostate lemma ApartSole(n: NodeID)
      requires old(Shape({n}) && Known() && Isolated() && Ready(n)) && Kept(n)
      requires OnEdges(n, old(edge)) && Shared(n, old(superseded)) && !FansOut(graph.View(), n)
      ensures Apart(n)
    {
      hide Views, Leaves, Downs, Shape;
      forall k, e | k in old(edge) && k.1 !in done && e in old(edge)[k] ensures e !in outputs && e !in superseded {
        assert old(Waiting(k));
      }
    }

    twostate lemma StoredApart(n: NodeID)
      requires old(Shape({n}) && Known() && Isolated() && Ready(n)) && Stored(n)
      ensures Apart(n)
    {
      hide Shape, Known, Isolated, Ready, Kept, OnEdges, Cloned, Shared, FansOut, Apart;
      if FansOut(graph.View(), n) {
        ApartFan(n);
      } else {
        ApartSole(n);
      }
    }

    twostate lemma StoredIsolated(n: NodeID)
      requires old(Isolated()) && Kept(n) && OnEdges(n, old(edge)) && Apart(n)
      ensures Isolated()
    {
      hide Views, Leaves, FansOut, Downs;
      forall j, k, e | Waiting(j) && Waiting(k) && j != k && e in edge[j] ensures e !in edge[k] {
        assert j in old(edge) ==> old(Waiting(j)) && edge[j] == old(edge)[j];
        assert k in old(edge) ==> old(Waiting(k)) && edge[k] == old(edge)[k];
        assert edge[j] == Lookup(edge, j) && edge[k] == Lookup(edge, k);
      }
    }

    /** The clones carry on for their originals. */
    twostate lemma ClonesCarry(n: NodeID)
      requires old(Known()) && Stored(n)
      ensures FansOut(graph.View(), n) ==> forall e :: e in outputs ==> Carried(e.url)
    {
      hide Views, Downs, Shared;
      if FansOut(graph.View(), n) {
        var x :| x in Downs(graph.View(), n);
        forall e | e in outputs ensures Carried(e.url) {
          var i :| 0 <= i < |outputs| && outputs[i] == e;
          SameURL(outputs, edge[(n, x)], i);
          var c := edge[(n, x)][i];
          assert c in edge[(n, x)];
          assert c !in old(known) && forall s :: s in superseded ==> s in old(known);
        }
      }
    }

    twostate lemma StoredLive(n: NodeID)
      requires old(Known() && Live() && Discards()) && Stored(n)
      ensures Live() && Discards()
    {
      hide Views, Downs, FansOut;
      ClonesCarry(n);
      forall e | e in superseded && e.url != "" ensures Carried(e.url) {
        if e in old(superseded) {
          var k, c :| k in old(edge) && c in old(edge)[k] && c.url == e.url && c !in old(superseded);
          assert k in edge && c in edge[k];
        }
      }
    }

    twostate lemma StoredUntouched(n: NodeID)
      requires old(Shape({n}) && Known() && Untouched({n}) && Ready(n)) && Stored(n)
      requires Shape({}) && Known()
      ensures Untouched({})
    {
      hide Views, Leaves, FansOut;
      SameValues(old(outputs));
      forall k | Waiting(k) ensures Views(edge[k]) == Leaves(plugins[k.0], recs[k.0]) {
        if k in old(edge) { SameValues(edge[k]); }
      }
      forall m | m in producedBy && FansOut(graph.View(), m)
        ensures Views(producedBy[m]) == Leaves(plugins[m], recs[m])
        ensures forall e :: e in producedBy[m] ==> e in superseded
      {
        SameValues(producedBy[m]);
      }
    }

    twostate lemma StoredRecorded(n: NodeID)
      requires old(Shape({n}) && Known() && Recorded({n})) && Stored(n)
      requires Shape({})
      ensures Recorded({})
    {
      hide Views, Leaves, FansOut, Fits, Delivered, FailedAtSink;
    }

    twostate lemma StoredBalanced(n: NodeID)
      requires old(Shape({n}) && Known() && Ready(n) && Balanced()) && Stored(n)
      ensures Balanced()
    {
      hide Views, Leaves, FansOut, Downs, InOrder, Cloned, Shared, Built;
      var leaves := Leaves(plugins[n], recs[n]);
      forall k | k in edge && k !in old(edge) ensures k.0 == n && URLsMatch(edge[k], leaves) {
        assert edge[k] == edge[(n, k.1)];
        URLsAlike(outputs, edge[k], leaves);
      }
      StoreInOrder(plugins, recs, old(OnRecord()), n, edge);
    }

    twostate lemma StoredSupersedes(n: NodeID)
      requires old(Shape({n}) && Known() && Supersedes({n}) && n in calls && calls[n].produced == outputs) && Stored(n)
      ensures Supersedes({})
    {
      hide Views, Leaves, FansOut, Downs, OnEdges, Built;
      forall e | e in superseded ensures exists m :: Behind({}, m, e) {
        if e in old(superseded) {
          var m :| old(Behind({n}, m, e));
          assert Behind({}, m, e);
        } else {
          assert Behind({}, n, e);
        }
      }
    }

    twostate lemma StoredValid(n: NodeID)
      requires old(ValidBut(n)) && Stored(n)
      ensures Valid()
    {
      hide Balanced, Supersedes, Kept, OnEdges, Apart, Cloned, Shared, Shape, Known, Isolated, Live, Discards;
      hide Untouched, Recorded, Ready;
      StoredShape(n);
      StoredApart(n);
      StoredIsolated(n);
      StoredLive(n);
      StoredUntouched(n);
      StoredRecorded(n);
      StoredBalanced(n);
      StoredSupersedes(n);
    }

    /** A source that declines the trigger is passed over: it hands on nothing, and puts nothing on its edges. */
    method Skip(n: NodeID)
      requires Valid() && n in graph.nodes && n in plugins && n !in done && Declines(plugins[n])
      requires forall u :: u in graph.nodes[n].upstreams ==> u in done
      modifies this`done, this`recs
      ensures Valid() && done == old(done) + {n}
    {
      hide Known, Isolated, Live, Discards, Untouched, Recorded, Balanced, Supersedes, Built, Views, Leaves, Gather;
      hide Merge;
      ghost var arrived := Merge(Gather(graph.nodes[n].upstreams, plugins, recs));
      recs := recs[n := Record(arrived, [], [], arrived, false)];
      done := done + {n};
      SkippedValid(n);
    }

    twostate predicate Skipped(n: NodeID)
      reads *
    {
      n in graph.nodes &&
      var arrived := Merge(Gather(graph.nodes[n].upstreams, plugins, old(recs)));
      && n in plugins && n !in old(done) && Declines(plugins[n])
      && (forall u :: u in graph.nodes[n].upstreams ==> u in old(done))
      && done == old(done) + {n} && recs == old(recs)[n := Record(arrived, [], [], arrived, false)]
      && edge == old(edge) && superseded == old(superseded) && known == old(known) && producedBy == old(producedBy)
      && OnRecord() == old(OnRecord())
      && failedURLs == old(failedURLs) && deliveredURLs == old(deliveredURLs) && discarded == old(discarded)
      && (forall e :: e in old(known) ==> e.View() == old(e.View()))
      && graph.View() == old(graph.View()) && graph.nodes == old(graph.nodes)
    }

    twostate lemma SkippedValid(n: NodeID)
      requires old(Valid()) && Skipped(n)
      ensures Valid()
    {
      hide Skipped, Shape, Known, Isolated, Live, Discards, Untouched, Recorded, Balanced, Supersedes;
      SkippedShape(n);
      SkippedSupersedes(n);
      SkippedBalanced(n);
      SkippedUntouched(n);
      SkippedRecorded(n);
    }

    twostate lemma SkippedBalanced(n: NodeID)
      requires old(Shape({}) && Balanced()) && Skipped(n)
      ensures Balanced()
    {
      hide Views, Gather, Merge, Built, InOrder;
      SkipInOrder(plugins, old(recs), old(OnRecord()), n, recs[n]);
    }

    twostate lemma SkippedSupersedes(n: NodeID)
      requires old(Supersedes({})) && Skipped(n)
      ensures Supersedes({})
    {
      hide Views, Gather, Merge, Built, FansOut, Downs;
      assert calls == old(calls);
      forall e | e in superseded ensures exists m :: Behind({}, m, e) {
        var m :| old(Behind({}, m, e));
        assert Behind({}, m, e);
      }
    }

    twostate lemma SkippedShape(n: NodeID)
      requires old(Shape({}) && Known() && Isolated() && Live() && Discards()) && Skipped(n)
      ensures Shape({}) && Known() && Isolated() && Live() && Discards()
    {
      hide Views, Gather, Merge, Built, Isolated, Live, Discards;
      SkippedIsolated(n);
    }

    twostate lemma SkippedIsolated(n: NodeID)
      requires old(Isolated() && Live() && Discards()) && Skipped(n)
      ensures Isolated() && Live() && Discards()
    {
      hide Views, Gather, Merge, Built, Downs;
    }

    twostate lemma SkippedUntouched(n: NodeID)
      requires old(Shape({}) && Known() && Untouched({})) && Skipped(n)
      requires Shape({}) && Known()
      ensures Untouched({})
    {
      hide Views, Leaves, Gather, Merge, Built;
      forall k | Waiting(k) ensures Views(edge[k]) == Leaves(plugins[k.0], recs[k.0]) {
        SameValues(edge[k]);
      }
      forall m | m in producedBy && FansOut(graph.View(), m)
        ensures Views(producedBy[m]) == Leaves(plugins[m], recs[m])
      {
        SameValues(producedBy[m]);
      }
    }

    twostate lemma SkippedRecorded(n: NodeID)
      requires old(Shape({}) && Known() && Recorded({})) && Skipped(n)
      requires Shape({})
      ensures Recorded({})
    {
      hide Views, Leaves, Gather, Merge, Delivered, FailedAtSink, Built;
      LedgersStep(plugins, old(recs), n, recs[n]);
      forall m | m in done ensures Fits(graph.View(), plugins, recs, m) {
        GatherStable(graph.nodes[m].upstreams, plugins, old(recs), n, recs[n]);
      }
    }

    /** One round of the run's loop. */
    method RunOne(n: NodeID)
      requires Valid() && n in graph.nodes && n in plugins && n !in done
      requires forall u :: u in graph.nodes[n].upstreams ==> u in done
      modifies this, known
      ensures Valid() && done == old(done) + {n}
      ensures forall e :: e in known ==> e in old(known) || fresh(e)
    {
      hide Known, Isolated, Live, Discards, Untouched, Recorded, Ready, Balanced, Supersedes, FansOut, Views, Leaves;
      hide Merge, Gather;
      if Declines(plugins[n]) {
        Skip(n);
        return;
      }
      var upstream := CollectUpstream(n);
      var produced := TakeTurn(n, upstream);
      label Turned:
      StoreOutputs(n, produced);
      StoredValid@Turned(n);
    }
  }

  lemma ClonesPut(n: NodeID, downs: seq<NodeID>, copies: seq<seq<Entry>>, edge: map<Edge, seq<Entry>>,
                  known: set<Entry>)
    requires |copies| == |downs| && forall x :: x in downs ==>
      (n, x) in edge && edge[(n, x)] == copies[IndexOf(downs, x)]
    requires forall i, e :: 0 <= i < |copies| && e in copies[i] ==> e !in known
    requires forall i, j, e :: 0 <= i < |copies| && 0 <= j < |copies| && i != j && e in copies[i] ==> e !in copies[j]
    ensures forall x :: x in downs ==> edge[(n, x)] in copies
    ensures forall x, e :: x in downs && e in edge[(n, x)] ==> e !in known
    ensures forall x, y, e :: x in downs && y in downs && x != y && e in edge[(n, x)] ==> e !in edge[(n, y)]
  {
    hide IndexOf;
    forall x, y, e | x in downs && y in downs && x != y && e in edge[(n, x)] ensures e !in edge[(n, y)] {
      assert downs[IndexOf(downs, x)] == x && downs[IndexOf(downs, y)] == y;
    }
  }

  twostate lemma SameValues(es: seq<Entry>)
    requires forall e :: e in es ==> e.View() == old(e.View())
    ensures Views(es) == old(Views(es))
  {
  }

  lemma URLsAlike(a: seq<Entry>, b: seq<Entry>, items: seq<Item>)
    requires Views(a) == Views(b) && URLsMatch(a, items)
    ensures URLsMatch(b, items)
  {
    forall i | 0 <= i < |b| ensures b[i].url == items[i].url { SameURL(b, a, i); }
  }

  twostate lemma URLsNow(es: seq<Entry>)
    ensures URLsMatch(es, old(Views(es)))
  {
    forall i | 0 <= i < |es| ensures es[i].url == old(Views(es))[i].url {
      assert old(Views(es))[i] == old(es[i].View());
    }
  }

  lemma BooksAfter(b: Books, a: Books, inst: Instance, n: NodeID, c: Call, after: seq<Item>)
    requires a.edge == b.edge && a.calls == b.calls[n := c]
    requires a.sourceEntries == b.sourceEntries + if inst.role.Source? then c.produced else []
    requires a.dropped == b.dropped + if inst.role.Sink? then {} else StrandedBy(c.upstream, c.produced, after)
    requires a.discarded == b.discarded + if inst.discards then Members(c.upstream) else {}
    ensures a == AfterTurn(b, inst, n, c, after)
  {
    hide StrandedBy, Members;
  }

  lemma StrandedIs(upstream: seq<Entry>, produced: seq<Entry>)
    ensures Stranded(upstream, produced) == StrandedBy(upstream, produced, Views(upstream))
  {
    forall i | 0 <= i < |upstream| ensures Views(upstream)[i].state == upstream[i].state {
      assert Views(upstream)[i] == upstream[i].View();
    }
  }

  /** Whatever happens to entries, they keep their URLs. */
  twostate lemma SameURLsAnyway(es: seq<Entry>)
    ensures SameURLs(Views(es), old(Views(es)))
  {
  }

  lemma FansOutIff(d: Dag, n: NodeID, downs: seq<NodeID>)
    requires Distinct(downs) && forall x :: x in downs <==> x in Downs(d, n)
    ensures FansOut(d, n) <==> |downs| > 1
    ensures |downs| == 1 ==> forall x :: x in Downs(d, n) <==> x == downs[0]
  {
    if |downs| > 1 {
      assert downs[0] in Downs(d, n) && downs[1] in Downs(d, n);
    }
  }

  function PutAll(edge: map<Edge, seq<Entry>>, n: NodeID, downs: seq<NodeID>,
                  copies: seq<seq<Entry>>): (r: map<Edge, seq<Entry>>)
    requires |downs| == |copies| && Distinct(downs)
    ensures forall k :: k in edge && (k.0 != n || k.1 !in downs) ==> k in r && r[k] == edge[k]
    ensures forall k :: k in r ==> k in edge || (k.0 == n && k.1 in downs)
    ensures forall x :: x in downs ==> (n, x) in r && r[(n, x)] == copies[IndexOf(downs, x)]
    decreases |downs|
  {
    if downs == [] then edge
    else
      var m := |downs| - 1;
      IndexInFront(downs);
      PutAll(edge, n, downs[..m], copies[..m])[(n, downs[m]) := copies[m]]
  }

  lemma IndexInFront(s: seq<NodeID>)
    requires Distinct(s) && s != []
    ensures IndexOf(s, s[|s| - 1]) == |s| - 1
    ensures forall x :: x in s[..|s| - 1] ==> x in s && x != s[|s| - 1] && IndexOf(s[..|s| - 1], x) == IndexOf(s, x)
    ensures forall x :: x in s ==> x in s[..|s| - 1] || x == s[|s| - 1]
  {
    hide IndexOf;
    var m := |s| - 1;
    assert s == s[..m] + [s[m]];
    forall x | x in s[..m] ensures x in s && x != s[m] && IndexOf(s[..m], x) == IndexOf(s, x) {
      var j := IndexOf(s[..m], x);
      assert s[j] == x;
    }
  }

  lemma FlattenEmpty(plugins: map<NodeID, Instance>, recs: map<NodeID, Record>)
    ensures Views(Flatten([])) == Gather([], plugins, recs)
  {
  }
}
