/**
  Warnings about a refusal below a collapse (internal/dag/ordering.go).

  The depth-first searches of the source are proved against statements about
  paths: a refusal loses an item exactly when it lies on every path from the
  collapse to a sink and no replayed verdict guards every path into the collapse.
 */
module Ordering {
  import opened Graph
  import Layers

  type Field = string

  /** What the registry and a node's configuration say about the node. */
  datatype Facts = Facts(
    sink: bool,              // the plugin's role
    collapses: bool,
    refusesRelease: bool,    // RefusalIn(config) is RefusalPerRelease
    decides: seq<Field>,     // decisionFields: empty when unknown
    replays: bool,           // ReplaysPerReleaseVerdict
    produces: set<Field>     // Produces and MayProduce
  )

  type Registry = NodeID -> Facts

  ghost predicate Walk(d: Dag, p: seq<NodeID>, a: NodeID, b: NodeID) {
    Path(d, p) && p[0] == a && p[|p| - 1] == b
  }

  // --- What the searches decide ---

  ghost predicate IsDescendant(d: Dag, a: NodeID, b: NodeID) {
    exists p :: Walk(d, p, a, b) && |p| > 1
  }

  ghost predicate ToSink(d: Dag, facts: Registry, from: NodeID, p: seq<NodeID>) {
    Path(d, p) && |p| > 1 && p[0] == from && facts(p[|p| - 1]).sink
  }

  ghost predicate OnEveryWayOut(d: Dag, facts: Registry, from: NodeID, ref: NodeID) {
    forall p :: ToSink(d, facts, from, p) ==> ref in p[1..]
  }

  ghost predicate FromSource(d: Dag, col: NodeID, p: seq<NodeID>) {
    Path(d, p) && p[|p| - 1] == col && d.ups[p[0]] == []
  }

  predicate IsGate(facts: Registry, f: Field, n: NodeID) { facts(n).replays && f in facts(n).produces }

  ghost predicate Gated(d: Dag, facts: Registry, col: NodeID, f: Field) {
    forall p :: FromSource(d, col, p) ==> exists i :: 0 <= i < |p| - 1 && IsGate(facts, f, p[i])
  }

  ghost predicate Replayable(d: Dag, facts: Registry, col: NodeID, ref: NodeID) {
    facts(ref).decides != [] && forall f :: f in facts(ref).decides ==> Gated(d, facts, col, f)
  }

  /** The item is lost for good when `ref` refuses a release that `col` has kept. */
  ghost predicate Loses(d: Dag, facts: Registry, col: NodeID, ref: NodeID) {
    && facts(col).collapses && facts(ref).refusesRelease && IsDescendant(d, col, ref)
    && OnEveryWayOut(d, facts, col, ref) && !Replayable(d, facts, col, ref)
  }

  // --- Searching downstream ---

  /** x is reached from `from` by a path whose inner nodes are not in `avoid`. */
  ghost predicate ReachedDown(d: Dag, from: NodeID, avoid: set<NodeID>, x: NodeID) {
    exists p :: Walk(d, p, from, x) && |p| > 1 && forall i :: 0 < i < |p| - 1 ==> p[i] !in avoid
  }

  /** What every search keeps: the stack is reachable, and nothing next to a visited node is forgotten. */
  ghost predicate SearchDown(d: Dag, from: NodeID, avoid: set<NodeID>, seen: set<NodeID>, stack: seq<NodeID>) {
    && from in seen && avoid <= seen && from !in avoid && from in d.ups && seen <= d.ups.Keys + avoid
    && (forall x :: x in stack ==> ReachedDown(d, from, avoid, x))
    && (forall x :: x in seen && x != from && x !in avoid ==> ReachedDown(d, from, avoid, x))
    && (forall v, w :: v in seen && v !in avoid && w in Downs(d, v) ==> w in seen || w in stack)
  }

  lemma StartDown(d: Dag, from: NodeID, avoid: set<NodeID>, stack: seq<NodeID>)
    requires from in d.ups && from !in avoid
    requires forall n :: n in stack <==> n in Downs(d, from)
    ensures SearchDown(d, from, avoid, {from} + avoid, stack)
  {
    forall x | x in stack ensures ReachedDown(d, from, avoid, x) {
      assert Walk(d, [from, x], from, x);
    }
  }

  lemma ExtendDown(d: Dag, from: NodeID, avoid: set<NodeID>, x: NodeID, w: NodeID)
    requires ReachedDown(d, from, avoid, x) && x !in avoid && w in Downs(d, x)
    ensures ReachedDown(d, from, avoid, w)
  {
    var p :| Walk(d, p, from, x) && |p| > 1 && forall i :: 0 < i < |p| - 1 ==> p[i] !in avoid;
    assert Walk(d, p + [w], from, w);
  }

  lemma SkipDown(d: Dag, from: NodeID, avoid: set<NodeID>, seen: set<NodeID>, stack: seq<NodeID>)
    requires SearchDown(d, from, avoid, seen, stack) && stack != [] && stack[|stack| - 1] in seen
    ensures SearchDown(d, from, avoid, seen, stack[..|stack| - 1])
  {
    hide ReachedDown;
    var n := |stack| - 1;
    assert stack == stack[..n] + [stack[n]];
  }

  lemma VisitDown(d: Dag, from: NodeID, avoid: set<NodeID>, seen: set<NodeID>, stack: seq<NodeID>, downs: seq<NodeID>)
    requires SearchDown(d, from, avoid, seen, stack) && stack != [] && stack[|stack| - 1] !in seen
    requires forall n :: n in downs <==> n in Downs(d, stack[|stack| - 1])
    ensures var n := |stack| - 1;
      stack[n] in d.ups && SearchDown(d, from, avoid, seen + {stack[n]}, stack[..n] + downs)
  {
    var n := |stack| - 1;
    var x := stack[n];
    assert stack == stack[..n] + [x];
    assert x in stack && ReachedDown(d, from, avoid, x);
    forall w | w in downs ensures ReachedDown(d, from, avoid, w) {
      ExtendDown(d, from, avoid, x, w);
    }
    hide ReachedDown;
  }

  /** A finished search has seen every node that a path around `avoid` leads to. */
  lemma {:induction false} SeenDown(d: Dag, from: NodeID, avoid: set<NodeID>, seen: set<NodeID>, p: seq<NodeID>)
    requires SearchDown(d, from, avoid, seen, []) && Path(d, p) && p[0] == from
    requires forall i :: 0 < i < |p| - 1 ==> p[i] !in avoid
    ensures p[|p| - 1] in seen
    decreases |p|
  {
    if |p| > 1 {
      var n := |p| - 1;
      SeenDown(d, from, avoid, seen, p[..n]);
      assert p[n] in Downs(d, p[n - 1]);
    }
  }

  /** Whether a sink is reached from `from` without passing through `avoid`. */
  method ReachesSinkAvoiding(g: Graph, facts: Registry, from: NodeID, avoid: NodeID) returns (r: bool)
    requires g.Valid() && from in g.nodes && from != avoid
    ensures r <==> !OnEveryWayOut(g.View(), facts, from, avoid)
  {
    hide Built, SearchDown, OnEveryWayOut, Downs;
    ghost var d := g.View();
    var seen := {from, avoid};
    var stack := g.Downstreams(from);
    StartDown(d, from, {avoid}, stack);
    assert {from} + {avoid} == seen;
    while stack != []
      invariant SearchDown(d, from, {avoid}, seen, stack)
      invariant forall x :: x in seen && x != from && x != avoid ==> !facts(x).sink
      decreases d.ups.Keys - seen, |stack|
    {
      var cur := stack[|stack| - 1];
      if cur in seen {
        SkipDown(d, from, {avoid}, seen, stack);
        stack := stack[..|stack| - 1];
        continue;
      }
      var downs := g.Downstreams(cur);
      VisitDown(d, from, {avoid}, seen, stack, downs);
      stack := stack[..|stack| - 1];
      seen := seen + {cur};
      if facts(cur).sink {
        SinkFound(d, facts, from, avoid, seen, stack + downs, cur);
        return true;
      }
      stack := stack + downs;
    }
    NoSinkFound(d, facts, from, avoid, seen);
    r := false;
  }

  lemma SinkFound(d: Dag, facts: Registry, from: NodeID, avoid: NodeID, seen: set<NodeID>, stack: seq<NodeID>,
                  x: NodeID)
    requires SearchDown(d, from, {avoid}, seen, stack) && x in seen && x != from && x != avoid && facts(x).sink
    ensures !OnEveryWayOut(d, facts, from, avoid)
  {
    assert ReachedDown(d, from, {avoid}, x);
    var p :| Walk(d, p, from, x) && |p| > 1 && forall i :: 0 < i < |p| - 1 ==> p[i] !in {avoid};
    assert ToSink(d, facts, from, p);
    assert avoid !in p[1..];
  }

  lemma NoSinkFound(d: Dag, facts: Registry, from: NodeID, avoid: NodeID, seen: set<NodeID>)
    requires Built(d) && SearchDown(d, from, {avoid}, seen, [])
    requires forall x :: x in seen && x != from && x != avoid ==> !facts(x).sink
    ensures OnEveryWayOut(d, facts, from, avoid)
  {
    hide Built, SearchDown;
    forall p | ToSink(d, facts, from, p) ensures avoid in p[1..] {
      if avoid !in p[1..] {
        assert forall i :: 0 < i < |p| ==> p[i] == p[1..][i - 1];
        SeenDown(d, from, {avoid}, seen, p);
        PathForward(d, p, 0, |p| - 1);
        assert false;
      }
    }
  }

  // --- Searching upstream ---

  /** x leads to `to` by a path whose inner nodes are not in `avoid`. */
  ghost predicate ReachedUp(d: Dag, to: NodeID, avoid: set<NodeID>, x: NodeID) {
    exists p :: Walk(d, p, x, to) && |p| > 1 && forall i :: 0 < i < |p| - 1 ==> p[i] !in avoid
  }

  ghost predicate SearchUp(d: Dag, to: NodeID, avoid: set<NodeID>, seen: set<NodeID>, stack: seq<NodeID>) {
    && to in seen && to in d.ups && seen <= d.ups.Keys && seen * avoid <= {to}
    && (forall x :: x in stack ==> ReachedUp(d, to, avoid, x))
    && (forall x :: x in seen && x != to ==> ReachedUp(d, to, avoid, x))
    && (forall v, u :: v in seen && u in d.ups[v] ==> u in seen || u in stack || u in avoid)
  }

  lemma StartUp(d: Dag, to: NodeID, avoid: set<NodeID>)
    requires Built(d) && to in d.ups
    ensures SearchUp(d, to, avoid, {to}, d.ups[to])
  {
    forall x | x in d.ups[to] ensures ReachedUp(d, to, avoid, x) {
      EdgeForward(d, to, x);
      assert Walk(d, [x, to], x, to);
    }
  }

  lemma ExtendUp(d: Dag, to: NodeID, avoid: set<NodeID>, x: NodeID, u: NodeID)
    requires ReachedUp(d, to, avoid, x) && x !in avoid && x in d.ups && u in d.ups && u in d.ups[x]
    ensures ReachedUp(d, to, avoid, u)
  {
    var p :| Walk(d, p, x, to) && |p| > 1 && forall i :: 0 < i < |p| - 1 ==> p[i] !in avoid;
    var q := [u] + p;
    assert forall i :: 0 < i < |q| ==> q[i] == p[i - 1];
    assert Walk(d, q, u, to);
  }

  lemma SkipUp(d: Dag, to: NodeID, avoid: set<NodeID>, seen: set<NodeID>, stack: seq<NodeID>)
    requires SearchUp(d, to, avoid, seen, stack) && stack != []
    requires stack[|stack| - 1] in seen || stack[|stack| - 1] in avoid
    ensures SearchUp(d, to, avoid, seen, stack[..|stack| - 1])
  {
    hide ReachedUp;
    var n := |stack| - 1;
    assert stack == stack[..n] + [stack[n]];
  }

  lemma VisitUp(d: Dag, to: NodeID, avoid: set<NodeID>, seen: set<NodeID>, stack: seq<NodeID>)
    requires Built(d) && SearchUp(d, to, avoid, seen, stack) && stack != []
    requires stack[|stack| - 1] !in seen && stack[|stack| - 1] !in avoid
    ensures var n := |stack| - 1;
      stack[n] in d.ups && SearchUp(d, to, avoid, seen + {stack[n]}, stack[..n] + d.ups[stack[n]])
  {
    var n := |stack| - 1;
    var x := stack[n];
    assert stack == stack[..n] + [x];
    assert x in stack && ReachedUp(d, to, avoid, x);
    forall u | u in d.ups[x] ensures ReachedUp(d, to, avoid, u) {
      EdgeForward(d, x, u);
      ExtendUp(d, to, avoid, x, u);
    }
    hide ReachedUp, Built;
  }

  lemma {:induction false} SeenUp(d: Dag, to: NodeID, avoid: set<NodeID>, seen: set<NodeID>, p: seq<NodeID>)
    requires SearchUp(d, to, avoid, seen, []) && Path(d, p) && p[|p| - 1] == to
    requires forall i :: 0 <= i < |p| - 1 ==> p[i] !in avoid
    ensures p[0] in seen
    decreases |p|
  {
    if |p| > 1 {
      assert forall i :: 0 <= i < |p| - 1 ==> p[1..][i] == p[i + 1];
      SeenUp(d, to, avoid, seen, p[1..]);
    }
  }

  /** Whether a source leads to `to` without passing through a gate. */
  method ReachesSourceAvoiding(g: Graph, to: NodeID, gates: set<NodeID>) returns (r: bool)
    requires g.Valid() && to in g.nodes
    ensures r <==> exists p :: FromSource(g.View(), to, p) && forall i :: 0 <= i < |p| - 1 ==> p[i] !in gates
  {
    hide Built, SearchUp, FromSource;
    ghost var d := g.View();
    if g.nodes[to].upstreams == [] {
      SourceItself(d, to);
      return true;
    }
    var seen := {to};
    var stack := g.nodes[to].upstreams;
    StartUp(d, to, gates);
    while stack != []
      invariant SearchUp(d, to, gates, seen, stack)
      invariant forall x :: x in seen ==> x in d.ups && d.ups[x] != []
      decreases d.ups.Keys - seen, |stack|
    {
      var cur := stack[|stack| - 1];
      if cur in seen || cur in gates {
        SkipUp(d, to, gates, seen, stack);
        stack := stack[..|stack| - 1];
        continue;
      }
      VisitUp(d, to, gates, seen, stack);
      stack := stack[..|stack| - 1];
      seen := seen + {cur};
      if g.nodes[cur].upstreams == [] {
        SourceFound(d, to, gates, seen, stack + d.ups[cur], cur);
        return true;
      }
      stack := stack + g.nodes[cur].upstreams;
    }
    NoSourceFound(d, to, gates, seen);
    r := false;
  }

  lemma SourceItself(d: Dag, to: NodeID)
    requires to in d.ups && d.ups[to] == []
    ensures FromSource(d, to, [to])
  {
  }

  lemma SourceFound(d: Dag, to: NodeID, gates: set<NodeID>, seen: set<NodeID>, stack: seq<NodeID>, x: NodeID)
    requires SearchUp(d, to, gates, seen, stack) && x in seen && x != to && x !in gates && d.ups[x] == []
    ensures exists p :: FromSource(d, to, p) && forall i :: 0 <= i < |p| - 1 ==> p[i] !in gates
  {
    assert ReachedUp(d, to, gates, x);
    var p :| Walk(d, p, x, to) && |p| > 1 && forall i :: 0 < i < |p| - 1 ==> p[i] !in gates;
    assert FromSource(d, to, p);
  }

  lemma NoSourceFound(d: Dag, to: NodeID, gates: set<NodeID>, seen: set<NodeID>)
    requires SearchUp(d, to, gates, seen, [])
    requires forall x :: x in seen ==> d.ups[x] != []
    ensures forall p :: FromSource(d, to, p) ==> exists i :: 0 <= i < |p| - 1 && p[i] in gates
  {
    hide SearchUp;
    forall p | FromSource(d, to, p) ensures exists i :: 0 <= i < |p| - 1 && p[i] in gates {
      if forall i :: 0 <= i < |p| - 1 ==> p[i] !in gates {
        SeenUp(d, to, gates, seen, p);
      }
    }
  }

  /** Every node upstream of `id`, once each. */
  method Ancestors(g: Graph, id: NodeID) returns (out: seq<NodeID>)
    requires g.Valid() && id in g.nodes
    ensures Distinct(out)
    ensures forall x :: x in out <==> IsDescendant(g.View(), x, id)
  {
    hide Built, SearchUp, IsDescendant;
    ghost var d := g.View();
    var seen := {id};
    var stack := g.nodes[id].upstreams;
    out := [];
    StartUp(d, id, {});
    while stack != []
      invariant SearchUp(d, id, {}, seen, stack)
      invariant seen <= d.ups.Keys && Distinct(out) && id !in out
      invariant forall x :: x in out <==> x in seen && x != id
      decreases d.ups.Keys - seen, |stack|
    {
      var cur := stack[|stack| - 1];
      if cur in seen {
        SkipUp(d, id, {}, seen, stack);
        stack := stack[..|stack| - 1];
        continue;
      }
      VisitUp(d, id, {}, seen, stack);
      SeenNodes(d, id, {}, seen, stack);
      seen := seen + {cur};
      out := out + [cur];
      stack := stack[..|stack| - 1] + g.nodes[cur].upstreams;
    }
    forall x ensures x in seen && x != id <==> IsDescendant(d, x, id) {
      AncestorIff(d, id, seen, x);
    }
  }

  lemma SeenNodes(d: Dag, to: NodeID, avoid: set<NodeID>, seen: set<NodeID>, stack: seq<NodeID>)
    requires SearchUp(d, to, avoid, seen, stack)
    ensures to in seen && seen <= d.ups.Keys
  {
  }

  lemma AncestorIff(d: Dag, id: NodeID, seen: set<NodeID>, x: NodeID)
    requires Built(d) && SearchUp(d, id, {}, seen, [])
    ensures x in seen && x != id <==> IsDescendant(d, x, id)
  {
    hide Built;
    if x in seen && x != id {
      assert ReachedUp(d, id, {}, x);
    }
    hide SearchUp;
    if IsDescendant(d, x, id) {
      var p :| Walk(d, p, x, id) && |p| > 1;
      SeenUp(d, id, {}, seen, p);
      PathForward(d, p, 0, |p| - 1);
    }
  }

  // --- Replayed verdicts ---

  /** The gates for one field: its producers among the replaying ancestors of the collapse. */
  method GatesFor(facts: Registry, ancestors: seq<NodeID>, f: Field) returns (gates: set<NodeID>)
    ensures forall n :: n in gates <==> n in ancestors && IsGate(facts, f, n)
  {
    gates := {};
    for k := 0 to |ancestors|
      invariant forall n :: n in gates <==> n in ancestors[..k] && IsGate(facts, f, n)
    {
      assert ancestors[..k + 1] == ancestors[..k] + [ancestors[k]];
      if facts(ancestors[k]).replays && f in facts(ancestors[k]).produces {
        gates := gates + {ancestors[k]};
      }
    }
    assert ancestors[..|ancestors|] == ancestors;
  }

  lemma GatesDecide(d: Dag, facts: Registry, col: NodeID, f: Field, ancestors: seq<NodeID>, gates: set<NodeID>)
    requires Built(d) && col in d.ups
    requires forall x :: x in ancestors <==> IsDescendant(d, x, col)
    requires forall n :: n in gates <==> n in ancestors && IsGate(facts, f, n)
    ensures Gated(d, facts, col, f) <==>
      gates != {} && forall p :: FromSource(d, col, p) ==> exists i :: 0 <= i < |p| - 1 && p[i] in gates
  {
    hide Built, IsGate, IsDescendant;
    forall p, i | FromSource(d, col, p) && 0 <= i < |p| - 1 ensures p[i] in ancestors {
      PathToAncestor(d, p, i);
    }
    if Gated(d, facts, col, f) {
      var p := Layers.LongestPath(d, col);
      assert FromSource(d, col, p);
      var i :| 0 <= i < |p| - 1 && IsGate(facts, f, p[i]);
      assert p[i] in gates;
    }
  }

  lemma PathToAncestor(d: Dag, p: seq<NodeID>, i: nat)
    requires Path(d, p) && i < |p| - 1
    ensures IsDescendant(d, p[i], p[|p| - 1])
  {
    var q := p[i..];
    assert forall k :: 0 <= k < |q| ==> q[k] == p[i + k];
    assert Walk(d, q, p[i], p[|p| - 1]);
  }

  /** Whether a later run repeats the refusal above the collapse. */
  method RefusalIsReplayable(g: Graph, facts: Registry, col: NodeID, ref: NodeID) returns (r: bool)
    requires g.Valid() && col in g.nodes
    ensures r <==> Replayable(g.View(), facts, col, ref)
  {
    hide Built, Gated, FromSource, IsDescendant, IsGate;
    ghost var d := g.View();
    var fields := facts(ref).decides;
    if fields == [] { return false; }
    var ancestors := Ancestors(g, col);
    for k := 0 to |fields|
      invariant forall f :: f in fields[..k] ==> Gated(d, facts, col, f)
    {
      assert fields[..k + 1] == fields[..k] + [fields[k]];
      var gates := GatesFor(facts, ancestors, fields[k]);
      GatesDecide(d, facts, col, fields[k], ancestors, gates);
      if gates == {} {
        assert fields[k] in fields;
        return false;
      }
      var open := ReachesSourceAvoiding(g, col, gates);
      if open {
        assert fields[k] in fields;
        return false;
      }
    }
    assert fields[..|fields|] == fields;
    r := true;
  }

  // --- The warnings ---

  /** A warning names the collapsing node and the node that refuses below it. */
  datatype Warning = Warning(collapse: NodeID, refuser: NodeID)

  /** Collapses in insertion order, and the refusers below each in ID order. */
  predicate Precedes(order: seq<NodeID>, a: Warning, b: Warning)
    requires a.collapse in order && b.collapse in order
  {
    IndexOf(order, a.collapse) < IndexOf(order, b.collapse)
    || (a.collapse == b.collapse && Less(a.refuser, b.refuser))
  }

  /** The refusers below one collapsing node whose refusal loses the item. */
  method Hits(g: Graph, facts: Registry, col: NodeID) returns (hits: seq<NodeID>)
    requires g.Valid() && col in g.nodes && facts(col).collapses
    ensures Distinct(hits)
    ensures forall x :: x in hits <==> Loses(g.View(), facts, col, x)
  {
    hide Built, SearchDown, OnEveryWayOut, Replayable, IsDescendant, Downs;
    ghost var d := g.View();
    hits := [];
    var seen := {col};
    var stack := g.Downstreams(col);
    StartDown(d, col, {}, stack);
    assert {col} + {} == seen;
    while stack != []
      invariant SearchDown(d, col, {}, seen, stack)
      invariant col in seen && Distinct(hits)
      invariant forall x :: x in hits <==>
        x in seen && x != col && facts(x).refusesRelease && OnEveryWayOut(d, facts, col, x) &&
          !Replayable(d, facts, col, x)
      decreases d.ups.Keys - seen, |stack|
    {
      var cur := stack[|stack| - 1];
      if cur in seen {
        SkipDown(d, col, {}, seen, stack);
        stack := stack[..|stack| - 1];
        continue;
      }
      var downs := g.Downstreams(cur);
      VisitDown(d, col, {}, seen, stack, downs);
      seen := seen + {cur};
      if facts(cur).refusesRelease {
        var around := ReachesSinkAvoiding(g, facts, col, cur);
        if !around {
          var replayable := RefusalIsReplayable(g, facts, col, cur);
          if !replayable {
            hits := hits + [cur];
          }
        }
      }
      stack := stack[..|stack| - 1] + downs;
    }
    forall x ensures x in seen && x != col <==> IsDescendant(d, col, x) {
      DescendantIff(d, col, seen, x);
    }
  }

  lemma DescendantIff(d: Dag, col: NodeID, seen: set<NodeID>, x: NodeID)
    requires Built(d) && SearchDown(d, col, {}, seen, [])
    ensures x in seen && x != col <==> IsDescendant(d, col, x)
  {
    hide Built;
    if x in seen && x != col {
      assert ReachedDown(d, col, {}, x);
    }
    hide SearchDown;
    if IsDescendant(d, col, x) {
      var p :| Walk(d, p, col, x) && |p| > 1;
      SeenDown(d, col, {}, seen, p);
      PathForward(d, p, 0, |p| - 1);
    }
  }

  ghost predicate InOrder(order: seq<NodeID>, ws: seq<Warning>) {
    && (forall i :: 0 <= i < |ws| ==> ws[i].collapse in order)
    && (forall i, j :: 0 <= i < j < |ws| ==> Precedes(order, ws[i], ws[j]))
  }

  function WarnAll(col: NodeID, hits: seq<NodeID>): seq<Warning> {
    seq(|hits|, i requires 0 <= i < |hits| => Warning(col, hits[i]))
  }

  lemma AppendWarnings(d: Dag, k: nat, ws: seq<Warning>, hits: seq<NodeID>)
    requires Built(d) && k < |d.order| && InOrder(d.order, ws) && StrictlySorted(hits)
    requires forall w :: w in ws ==> w.collapse in d.order[..k]
    ensures InOrder(d.order, ws + WarnAll(d.order[k], hits))
    ensures forall w: Warning :: w in ws + WarnAll(d.order[k], hits) <==>
      w in ws || (w.collapse == d.order[k] && w.refuser in hits)
  {
    hide Built;
    var more := WarnAll(d.order[k], hits);
    var all := ws + more;
    assert forall w :: w in all <==> w in ws || w in more;
    forall w: Warning | w.collapse == d.order[k] && w.refuser in hits ensures w in more {
      var i :| 0 <= i < |hits| && hits[i] == w.refuser;
      assert more[i] == w;
    }
    forall i, j | 0 <= i < j < |all| ensures Precedes(d.order, all[i], all[j]) {
      if i < |ws| <= j {
        assert ws[i] in ws;
        EarlierIndex(d, k, ws[i].collapse);
      }
    }
  }

  lemma EarlierIndex(d: Dag, k: nat, id: NodeID)
    requires Built(d) && k < |d.order| && id in d.order[..k]
    ensures id in d.order && IndexOf(d.order, id) < IndexOf(d.order, d.order[k])
  {
  }

  /** Every refusal that loses an item is warned about exactly once, in a fixed order, and nothing else is. */
  method OrderingWarnings(g: Graph, facts: Registry) returns (ws: seq<Warning>)
    requires g.Valid()
    ensures forall w: Warning :: w in ws <==> w.collapse in g.nodes && Loses(g.View(), facts, w.collapse, w.refuser)
    ensures InOrder(g.order, ws) && Distinct(ws)
  {
    hide Built, Loses, InOrder, WarnAll, StrictlySorted, Distinct;
    ghost var d := g.View();
    ws := [];
    NoWarnings(d.order);
    for k := 0 to |g.order|
      invariant InOrder(d.order, ws)
      invariant forall w: Warning :: w in ws <==> w.collapse in d.order[..k] && Loses(d, facts, w.collapse, w.refuser)
    {
      var n := g.order[k];
      InGraph(g, k);
      assert d.order[..k + 1] == d.order[..k] + [n];
      if facts(n).collapses {
        var hits := Hits(g, facts, n);
        hits := SortIDs(hits);
        AppendWarnings(d, k, ws, hits);
        ws := ws + WarnAll(n, hits);
      } else {
        NoLoss(d, facts, n);
      }
    }
    assert d.order[..|d.order|] == d.order;
    AllInGraph(g);
    OrderedOnce(g.order, ws);
  }

  lemma NoWarnings(order: seq<NodeID>)
    ensures InOrder(order, [])
  {
  }

  lemma NoLoss(d: Dag, facts: Registry, col: NodeID)
    requires !facts(col).collapses
    ensures forall ref :: !Loses(d, facts, col, ref)
  {
  }

  lemma InGraph(g: Graph, k: nat)
    requires g.Valid() && k < |g.order|
    ensures g.order[k] in g.nodes
  {
    assert g.order[k] in g.View().order;
  }

  lemma AllInGraph(g: Graph)
    requires g.Valid()
    ensures forall id :: id in g.order <==> id in g.nodes
  {
  }

  lemma OrderedOnce(order: seq<NodeID>, ws: seq<Warning>)
    requires InOrder(order, ws)
    ensures Distinct(ws)
  {
  }
}
