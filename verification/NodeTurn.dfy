/** One node's turn (runNode in internal/executor/executor.go), and what Run reads off the entries after it. */
module NodeTurn {
  import opened Entries
  import opened Dataflow
  import Plugins

  /** The pre-filters of runNode: what the plugin is handed, and what bypasses it. */
  method PreFilter(inst: Instance, upstream: seq<Entry>) returns (matching: seq<Entry>, excluded: seq<Entry>)
    requires !inst.role.Source?
    ensures Views(matching) == Handed(inst, Views(upstream))
    ensures Views(excluded) == Bypassing(inst, Views(upstream))
    ensures forall e :: e in matching ==> e in upstream && e !in excluded
    ensures forall e :: e in excluded ==> e in upstream
  {
    hide Keep, Views;
    matching, excluded := Split(upstream, InStates(inst.states));
    ghost var byState, nonMatching := matching, excluded;
    var live, consumed := matching, [];
    if inst.role.Sink? {
      consumed, live := Split(matching, IsConsumed);
      ViewsAppend(excluded, consumed);
      excluded := excluded + consumed;
    }
    var markers := [];
    matching := live;
    if !inst.acceptsMarkers {
      markers, matching := Split(live, IsMarker);
      ViewsAppend(excluded, markers);
      excluded := excluded + markers;
    }
  }

  /** runNode: calls the plugin with what it may see and appends what bypassed it. */
  method RunNode(inst: Instance, upstream: seq<Entry>)
    returns (produced: seq<Entry>, ghost handed: seq<Item>, ghost out: seq<Item>, panicked: bool)
    requires !Declines(inst)
    modifies set e | e in upstream
    ensures forall e :: e in produced ==> e in upstream || fresh(e)
    ensures handed == Handed(inst, old(Views(upstream)))
    ensures Views(produced) == Leaves(inst, Record(old(Views(upstream)), handed, out, [], panicked))
    ensures inst.role.Sink? && !panicked ==> SameURLs(out, handed)
  {
    hide Views, Keep, Handed, Bypassing;
    handed, out, produced := [], [], [];
    SourceSeesNothing(inst, old(Views(upstream)));
    if inst.role.Source? {
      produced, panicked, out := Plugins.Generate();
      if panicked { produced := []; }
      return;
    }
    var matching, excluded := PreFilter(inst, upstream);
    ghost var bypassing := Views(excluded);
    if inst.role.Processor? {
      var procOut;
      procOut, panicked, handed, out := Plugins.Process(matching);
      if panicked { return; }
      assert Views(excluded) == bypassing;
      ViewsAppend(procOut, excluded);
      if |excluded| == 0 {
        assert procOut + excluded == procOut;
        produced := procOut;
      } else if |procOut| == 0 {
        assert procOut + excluded == excluded;
        produced := excluded;
      } else {
        produced := procOut + excluded;
      }
    } else {
      panicked, handed := Plugins.Consume(matching);
      if panicked { return; }
      assert Views(excluded) == bypassing;
      out := Views(matching);
      ViewsAppend(matching, excluded);
      if |excluded| == 0 {
        assert matching + excluded == matching;
        produced := matching;
      } else if |matching| == 0 {
        assert matching + excluded == excluded;
        produced := excluded;
      } else {
        produced := matching + excluded;
      }
    }
  }

  lemma SourceSeesNothing(inst: Instance, arrived: seq<Item>)
    ensures inst.role.Source? ==> Handed(inst, arrived) == [] && Bypassing(inst, arrived) == []
  {
  }

  function Members(es: seq<Entry>): (r: set<Entry>)
    ensures (forall e :: e in r ==> e in es) && (forall e :: e in es ==> e in r)
  {
    set e | e in es
  }

  /** The entries a node received and neither emitted nor refused. */
  ghost function Stranded(upstream: seq<Entry>, produced: seq<Entry>): set<Entry>
    reads set e | e in upstream
  {
    set e | e in upstream && e !in produced && e.state != Rejected && e.state != Failed
  }

  method DeadEnds(upstream: seq<Entry>, produced: seq<Entry>) returns (dead: set<Entry>)
    ensures dead == Stranded(upstream, produced)
  {
    var emitted := Members(produced);
    dead := {};
    for k := 0 to |upstream|
      invariant dead == Stranded(upstream[..k], produced)
    {
      assert upstream[..k + 1] == upstream[..k] + [upstream[k]];
      if upstream[k] !in emitted && upstream[k].state != Rejected && upstream[k].state != Failed {
        dead := dead + {upstream[k]};
      }
    }
    assert upstream[..|upstream|] == upstream;
  }

  /** The URLs a sink failed, and those it left accepted or consumed. */
  method SinkURLs(upstream: seq<Entry>) returns (failed: set<string>, delivered: set<string>)
    ensures failed == set e | e in upstream && e.url != "" && e.state == Failed :: e.url
    ensures delivered == set e | e in upstream && e.url != "" && e.state != Failed &&
      (e.state == Accepted || e.consumed) :: e.url
  {
    failed, delivered := {}, {};
    for k := 0 to |upstream|
      invariant failed == set e | e in upstream[..k] && e.url != "" && e.state == Failed :: e.url
      invariant delivered ==
        set e | e in upstream[..k] && e.url != "" && e.state != Failed && (e.state == Accepted || e.consumed) :: e.url
    {
      assert upstream[..k + 1] == upstream[..k] + [upstream[k]];
      var e := upstream[k];
      if e.url == "" { continue; }
      if e.state == Failed {
        failed := failed + {e.url};
      } else if e.state == Accepted || e.consumed {
        delivered := delivered + {e.url};
      }
    }
    assert upstream[..|upstream|] == upstream;
  }

  lemma LeavesIgnoresAfter(inst: Instance, r: Record)
    ensures Leaves(inst, r) == Leaves(inst, r.(after := []))
  {
  }

  /** SinkURLs in terms of what can be read off the entries. */
  lemma LedgerView(upstream: seq<Entry>)
    ensures (set e | e in upstream && e.url != "" && e.state == Failed :: e.url) == FailedAfter(Views(upstream))
    ensures (set e | e in upstream && e.url != "" && e.state != Failed && (e.state == Accepted || e.consumed) :: e.url)
      == DeliveredAfter(Views(upstream))
  {
    hide Views;
    var after := Views(upstream);
    forall e | e in upstream ensures exists i :: 0 <= i < |after| && after[i] == e.View() {
      var i :| 0 <= i < |upstream| && upstream[i] == e;
      assert after[i] == e.View();
    }
  }
}
