/**
  Kahn's layering of a pipeline graph (internal/dag/sort.go).

  The reference definition of a node's layer is the length of the longest path
  that leads to it. A node that lists the same upstream twice is never placed:
  its in-degree counts the list, but each upstream takes one off only once.
 */
module Layers {
  import opened Graph

  // --- Longest paths ---

  /** The length of the longest path to a node, by recursion over the insertion order. */
  ghost function Depth(d: Dag, id: NodeID): (n: nat)
    requires Built(d) && id in d.ups
    decreases IndexOf(d.order, id), 1, 0
  {
    MaxDepth(d, id, |d.ups[id]|)
  }

  /** One more than the greatest depth among the first k upstreams, or 0. */
  ghost function MaxDepth(d: Dag, id: NodeID, k: nat): nat
    requires Built(d) && id in d.ups && k <= |d.ups[id]|
    decreases IndexOf(d.order, id), 0, k
  {
    if k == 0 then 0
    else
      EdgeForward(d, id, d.ups[id][k - 1]);
      var rest, here := MaxDepth(d, id, k - 1), Depth(d, d.ups[id][k - 1]) + 1;
      if rest < here then here else rest
  }

  lemma {:induction false} MaxDepthIs(d: Dag, id: NodeID, k: nat)
    requires Built(d) && id in d.ups && k <= |d.ups[id]|
    ensures forall i :: 0 <= i < k ==> d.ups[id][i] in d.ups && Depth(d, d.ups[id][i]) < MaxDepth(d, id, k)
    ensures k > 0 ==>
      exists i :: 0 <= i < k && d.ups[id][i] in d.ups && MaxDepth(d, id, k) == Depth(d, d.ups[id][i]) + 1
    decreases k
  {
    if k > 0 {
      MaxDepthIs(d, id, k - 1);
      EdgeForward(d, id, d.ups[id][k - 1]);
    }
  }

  lemma DepthIs(d: Dag, id: NodeID)
    requires Built(d) && id in d.ups
    ensures forall u :: u in d.ups[id] ==> u in d.ups && Depth(d, u) < Depth(d, id)
    ensures d.ups[id] == [] <==> Depth(d, id) == 0
    ensures d.ups[id] != [] ==> exists u :: u in d.ups[id] && u in d.ups && Depth(d, id) == Depth(d, u) + 1
  {
    MaxDepthIs(d, id, |d.ups[id]|);
  }

  /** No path to a node is longer than its depth. */
  lemma {:induction false} PathAtMostDepth(d: Dag, p: seq<NodeID>)
    requires Built(d) && Path(d, p)
    ensures |p| - 1 <= Depth(d, p[|p| - 1])
    decreases |p|
  {
    if |p| > 1 {
      var front := p[..|p| - 1];
      PathAtMostDepth(d, front);
      DepthIs(d, p[|p| - 1]);
      assert p[|p| - 2] in d.ups[p[|p| - 1]];
    }
  }

  lemma PathSnoc(d: Dag, q: seq<NodeID>, id: NodeID)
    requires Path(d, q) && id in d.ups && q[|q| - 1] in d.ups[id]
    ensures Path(d, q + [id])
  {
  }

  /** A path as long as the depth exists, and it starts at a source. */
  lemma {:induction false} LongestPath(d: Dag, id: NodeID) returns (p: seq<NodeID>)
    requires Built(d) && id in d.ups
    ensures Path(d, p) && p[|p| - 1] == id && |p| - 1 == Depth(d, id) && d.ups[p[0]] == []
    decreases IndexOf(d.order, id)
  {
    hide Built, Depth, IndexOf;
    DepthIs(d, id);
    if d.ups[id] == [] {
      p := [id];
    } else {
      var u :| u in d.ups[id] && u in d.ups && Depth(d, id) == Depth(d, u) + 1;
      EdgeForward(d, id, u);
      var q := LongestPath(d, u);
      PathSnoc(d, q, id);
      p := q + [id];
    }
  }

  // --- Counting the upstreams already placed ---

  ghost function Placed(ups: seq<NodeID>, done: set<NodeID>): set<NodeID> {
    set u | u in ups && u in done
  }

  /** What is left of a node's in-degree once `done` has been placed. */
  ghost function Left(ups: seq<NodeID>, done: set<NodeID>): int {
    |ups| - |Placed(ups, done)|
  }

  lemma LeftStep(ups: seq<NodeID>, done: set<NodeID>, x: NodeID)
    requires x !in done
    ensures Left(ups, done + {x}) == Left(ups, done) - if x in ups then 1 else 0
  {
    if x in ups {
      assert Placed(ups, done + {x}) == Placed(ups, done) + {x};
    } else {
      assert Placed(ups, done + {x}) == Placed(ups, done);
    }
  }

  lemma {:induction false} PlacedBound(ups: seq<NodeID>, done: set<NodeID>)
    ensures |Placed(ups, done)| <= |ups|
    ensures |Placed(ups, done)| == |ups| <==> Distinct(ups) && forall u :: u in ups ==> u in done
    decreases |ups|
  {
    if ups == [] {
      assert Placed(ups, done) == {};
    } else {
      var rest, u := ups[1..], ups[0];
      PlacedBound(rest, done);
      DistinctCons(u, rest);
      assert ups == [u] + rest;
      hide Distinct;
      if u in done && u !in rest {
        assert Placed(ups, done) == Placed(rest, done) + {u};
      } else {
        assert Placed(ups, done) == Placed(rest, done);
      }
    }
  }

  lemma DistinctCons(u: NodeID, rest: seq<NodeID>)
    ensures Distinct([u] + rest) <==> Distinct(rest) && u !in rest
  {
    var s := [u] + rest;
    if Distinct(s) {
      forall i, j | 0 <= i < j < |rest| ensures rest[i] != rest[j] {
        assert s[i + 1] != s[j + 1];
      }
      forall i | 0 <= i < |rest| ensures rest[i] != u {
        assert s[0] != s[i + 1];
      }
    }
  }

  // --- The algorithm ---

  datatype Layering = Layered(layers: seq<seq<NodeID>>) | Cycle

  /** Layer k holds, in ID order, exactly the nodes whose longest path has length k. */
  ghost predicate IsLayering(d: Dag, layers: seq<seq<NodeID>>)
    requires Built(d)
  {
    && (forall k :: 0 <= k < |layers| ==> layers[k] != [] && StrictlySorted(layers[k]))
    && (forall k, id :: 0 <= k < |layers| ==> (id in layers[k] <==> id in d.ups && Depth(d, id) == k))
    && (forall id :: id in d.ups ==> Depth(d, id) < |layers|)
  }

  ghost function Members(ids: seq<NodeID>): set<NodeID> { set x | x in ids }

  ghost predicate Counted(d: Dag, inDegree: map<NodeID, int>, done: set<NodeID>) {
    && inDegree.Keys == d.ups.Keys
    && forall id :: id in d.ups ==> inDegree[id] == Left(d.ups[id], done)
  }

  /** The nodes with nothing left to wait for are those placed and those queued. */
  ghost predicate Ready(d: Dag, done: set<NodeID>, queued: set<NodeID>) {
    && done <= d.ups.Keys && queued <= d.ups.Keys && done !! queued
    && forall id :: id in d.ups ==> (Left(d.ups[id], done) == 0 <==> id in done || id in queued)
  }

  /** Every node placed so far is in the layer of its depth, every queued one is in the next. */
  ghost predicate AtDepth(d: Dag, layers: seq<seq<NodeID>>, done: set<NodeID>, queued: set<NodeID>)
    requires Built(d)
  {
    && done <= d.ups.Keys && queued <= d.ups.Keys
    && (forall k :: 0 <= k < |layers| ==> layers[k] != [] && StrictlySorted(layers[k]))
    && (forall k, id :: 0 <= k < |layers| && id in layers[k] ==> id in done && Depth(d, id) == k)
    && (forall id :: id in done ==> Depth(d, id) < |layers| && id in layers[Depth(d, id)])
    && (forall id :: id in queued ==> Depth(d, id) == |layers|)
  }

  /** Takes one node's edges out of the counts and queues what becomes ready. */
  method Decrement(g: Graph, x: NodeID, inDegree: map<NodeID, int>, next: seq<NodeID>, ghost done: set<NodeID>)
    returns (counts: map<NodeID, int>, queued: seq<NodeID>)
    requires g.Valid() && x !in done && Counted(g.View(), inDegree, done)
    requires Distinct(next) && forall id :: id in next ==> id in g.View().ups && inDegree[id] == 0
    ensures Counted(g.View(), counts, done + {x})
    ensures Distinct(queued)
    ensures forall id :: id in queued <==>
      id in next || (id in g.View().ups && inDegree[id] != 0 && counts[id] == 0)
  {
    hide Left, Built;
    var d := g.View();
    var downs := g.Downstreams(x);
    counts, queued := inDegree, next;
    for m := 0 to |downs|
      invariant counts.Keys == d.ups.Keys
      invariant forall id :: id in d.ups ==> counts[id] == inDegree[id] - if id in downs[..m] then 1 else 0
      invariant Distinct(queued)
      invariant forall id :: id in queued <==> id in next || (id in d.ups && inDegree[id] != 0 && counts[id] == 0)
    {
      var down := downs[m];
      assert down in Downs(d, x);
      WaitsFor(d.ups[down], done, x);
      assert downs[..m + 1] == downs[..m] + [down];
      counts := counts[down := counts[down] - 1];
      if counts[down] == 0 {
        queued := queued + [down];
      }
    }
    assert downs[..|downs|] == downs;
    forall id | id in d.ups ensures counts[id] == Left(d.ups[id], done + {x}) {
      LeftStep(d.ups[id], done, x);
      assert id in downs <==> id in Downs(d, x);
    }
  }

  lemma WaitsFor(ups: seq<NodeID>, done: set<NodeID>, x: NodeID)
    requires x in ups && x !in done
    ensures Left(ups, done) > 0
  {
    PlacedBound(ups, done);
  }

  lemma ZeroStays(ups: seq<NodeID>, a: set<NodeID>, b: set<NodeID>)
    requires a <= b && Left(ups, a) == 0
    ensures Left(ups, b) == 0
  {
    PlacedBound(ups, a);
    PlacedBound(ups, b);
  }

  /** The nodes that become ready in the round that places `queue` make up the next layer. */
  ghost predicate NextQueue(d: Dag, done: set<NodeID>, after: set<NodeID>, next: seq<NodeID>) {
    && Distinct(next)
    && forall id :: id in next <==> id in d.ups && Left(d.ups[id], after) == 0 && Left(d.ups[id], done) != 0
  }

  lemma NextQueueStep(d: Dag, done: set<NodeID>, mid: set<NodeID>, x: NodeID,
                      before: map<NodeID, int>, counts: map<NodeID, int>, next: seq<NodeID>, queued: seq<NodeID>)
    requires done <= mid && x !in mid
    requires Counted(d, before, mid) && Counted(d, counts, mid + {x})
    requires NextQueue(d, done, mid, next) && Distinct(queued)
    requires forall id :: id in queued <==> id in next || (id in d.ups && before[id] != 0 && counts[id] == 0)
    ensures NextQueue(d, done, mid + {x}, queued)
  {
    hide Left;
    forall id | id in d.ups
      ensures Left(d.ups[id], done) == 0 ==> Left(d.ups[id], mid) == 0
      ensures Left(d.ups[id], mid) == 0 ==> Left(d.ups[id], mid + {x}) == 0
    {
      if Left(d.ups[id], done) == 0 { ZeroStays(d.ups[id], done, mid); }
      if Left(d.ups[id], mid) == 0 { ZeroStays(d.ups[id], mid, mid + {x}); }
    }
  }

  lemma NextDepth(d: Dag, layers: seq<seq<NodeID>>, done: set<NodeID>, queue: seq<NodeID>, id: NodeID)
    requires Built(d) && AtDepth(d, layers, done, Members(queue)) && id in d.ups
    requires Left(d.ups[id], done + Members(queue)) == 0 && Left(d.ups[id], done) != 0
    ensures Depth(d, id) == |layers| + 1
  {
    PlacedBound(d.ups[id], done + Members(queue));
    PlacedBound(d.ups[id], done);
    DepthIs(d, id);
    var u :| u in d.ups[id] && u !in done;
    assert u in Members(queue);
  }

  lemma RoundDone(d: Dag, layers: seq<seq<NodeID>>, done: set<NodeID>, queue: seq<NodeID>, next: seq<NodeID>)
    requires Built(d) && queue != [] && StrictlySorted(queue)
    requires Ready(d, done, Members(queue)) && AtDepth(d, layers, done, Members(queue))
    requires NextQueue(d, done, done + Members(queue), next)
    ensures Ready(d, done + Members(queue), Members(next))
    ensures AtDepth(d, layers + [queue], done + Members(queue), Members(next))
  {
    hide Left;
    var after := done + Members(queue);
    forall id | id in d.ups
      ensures Left(d.ups[id], done) == 0 ==> Left(d.ups[id], after) == 0
    {
      if Left(d.ups[id], done) == 0 { ZeroStays(d.ups[id], done, after); }
    }
    forall id | id in Members(next) ensures Depth(d, id) == |layers| + 1 {
      NextDepth(d, layers, done, queue, id);
    }
  }

  lemma MembersSize(ids: seq<NodeID>)
    requires Distinct(ids)
    ensures |Members(ids)| == |ids|
  {
    if ids == [] {
      assert Members(ids) == {};
    } else {
      var n := |ids| - 1;
      MembersSize(ids[..n]);
      assert Members(ids) == Members(ids[..n]) + {ids[n]};
    }
  }

  lemma SortedDistinct(ids: seq<NodeID>)
    requires StrictlySorted(ids)
    ensures Distinct(ids)
  {
  }

  /** Without repeated upstreams, a graph in which nothing more is ready has been placed completely. */
  lemma {:induction false} AllPlaced(d: Dag, done: set<NodeID>, id: NodeID)
    requires Built(d) && Ready(d, done, {}) && id in d.ups
    requires forall n :: n in d.ups ==> Distinct(d.ups[n])
    ensures id in done
    decreases IndexOf(d.order, id)
  {
    hide Built;
    forall u | u in d.ups[id] ensures u in done {
      EdgeForward(d, id, u);
      AllPlaced(d, done, u);
    }
    PlacedBound(d.ups[id], done);
  }

  /** The loop's final test: all nodes placed, exactly when no node repeats an upstream. */
  lemma PlacedTest(d: Dag, layers: seq<seq<NodeID>>, done: set<NodeID>)
    requires Built(d) && Ready(d, done, {}) && AtDepth(d, layers, done, {})
    ensures |done| == |d.ups| <==> forall id :: id in d.ups ==> Distinct(d.ups[id])
    ensures |done| == |d.ups| ==> IsLayering(d, layers)
  {
    hide Built, Left;
    if forall id :: id in d.ups ==> Distinct(d.ups[id]) {
      forall id | id in d.ups ensures id in done { AllPlaced(d, done, id); }
      assert done == d.ups.Keys;
    } else {
      var id :| id in d.ups && !Distinct(d.ups[id]);
      PlacedBound(d.ups[id], done);
      assert Left(d.ups[id], done) != 0 by { RepeatsNeverReady(d.ups[id], done); }
      assert done <= d.ups.Keys - {id};
      ProperSubset(done, d.ups.Keys, id);
    }
    if |done| == |d.ups| {
      SameSize(done, d.ups.Keys);
    }
  }

  lemma RepeatsNeverReady(ups: seq<NodeID>, done: set<NodeID>)
    requires !Distinct(ups)
    ensures Left(ups, done) > 0
  {
    PlacedBound(ups, done);
  }

  lemma ProperSubset(a: set<NodeID>, b: set<NodeID>, x: NodeID)
    requires a <= b - {x} && x in b
    ensures |a| < |b|
  {
    SubsetSize(a, b - {x});
  }

  lemma {:induction false} SubsetSize(a: set<NodeID>, b: set<NodeID>)
    requires a <= b
    ensures |a| <= |b|
    ensures |a| == |b| ==> a == b
  {
    if a != {} {
      var x :| x in a;
      SubsetSize(a - {x}, b - {x});
      assert a == (a - {x}) + {x} && b == (b - {x}) + {x};
    }
  }

  lemma SameSize(a: set<NodeID>, b: set<NodeID>)
    requires a <= b && |a| == |b|
    ensures a == b
  {
    SubsetSize(a, b);
  }

  // --- Facts the main loop is put together from ---

  /** The nodes without upstreams, in insertion order. */
  method Seed(g: Graph, inDegree: map<NodeID, int>) returns (queue: seq<NodeID>)
    requires g.Valid() && Counted(g.View(), inDegree, {})
    ensures Distinct(queue)
    ensures forall id :: id in queue <==> id in g.View().ups && g.View().ups[id] == []
  {
    NothingPlaced();
    queue := [];
    for k := 0 to |g.order|
      invariant Distinct(queue)
      invariant forall id :: id in queue <==> id in g.order[..k] && inDegree[id] == 0
    {
      assert g.order[..k + 1] == g.order[..k] + [g.order[k]];
      assert g.order[k] !in g.order[..k];
      if inDegree[g.order[k]] == 0 {
        queue := queue + [g.order[k]];
      }
    }
    assert g.order[..|g.order|] == g.order;
  }

  lemma NothingPlaced()
    ensures forall ups :: Left(ups, {}) == |ups|
  {
    forall ups ensures Left(ups, {}) == |ups| {
      assert Placed(ups, {}) == {};
    }
  }

  lemma StartCounted(d: Dag, inDegree: map<NodeID, int>)
    requires inDegree.Keys == d.ups.Keys && forall id :: id in d.ups ==> inDegree[id] == |d.ups[id]|
    ensures Counted(d, inDegree, {})
  {
    NothingPlaced();
  }

  lemma StartReady(d: Dag, queue: seq<NodeID>)
    requires Built(d) && forall id :: id in queue <==> id in d.ups && d.ups[id] == []
    ensures Ready(d, {}, Members(queue)) && AtDepth(d, [], {}, Members(queue))
  {
    hide Left;
    NothingPlaced();
    forall id | id in Members(queue) ensures Depth(d, id) == 0 {
      DepthIs(d, id);
    }
  }

  lemma MembersStep(queue: seq<NodeID>, done: set<NodeID>, i: nat)
    requires i <= |queue|
    ensures i == 0 ==> done + Members(queue[..i]) == done
    ensures i < |queue| ==> done + Members(queue[..i + 1]) == done + Members(queue[..i]) + {queue[i]}
  {
    if i < |queue| { assert queue[..i + 1] == queue[..i] + [queue[i]]; }
  }

  lemma ReadyApart(d: Dag, done: set<NodeID>, queue: seq<NodeID>, i: nat)
    requires Ready(d, done, Members(queue)) && Distinct(queue) && i < |queue|
    ensures queue[i] in d.ups && queue[i] !in done + Members(queue[..i])
  {
    hide Left;
    assert queue[i] in Members(queue);
  }

  lemma ReadySize(d: Dag, done: set<NodeID>, queue: seq<NodeID>)
    requires Ready(d, done, Members(queue)) && Distinct(queue)
    ensures done + Members(queue) <= d.ups.Keys
    ensures |done + Members(queue)| == |done| + |queue|
    ensures queue != [] ==> d.ups.Keys - (done + Members(queue)) < d.ups.Keys - done
  {
    hide Left;
    MembersSize(queue);
    if queue != [] {
      assert queue[0] in Members(queue);
      assert queue[0] in d.ups.Keys - done && queue[0] !in d.ups.Keys - (done + Members(queue));
    }
  }

  lemma NoNextYet(d: Dag, done: set<NodeID>)
    ensures NextQueue(d, done, done, [])
  {
  }

  lemma NextIsReady(d: Dag, done: set<NodeID>, mid: set<NodeID>, inDegree: map<NodeID, int>, next: seq<NodeID>)
    requires Counted(d, inDegree, mid) && NextQueue(d, done, mid, next)
    ensures Distinct(next) && forall id :: id in next ==> id in d.ups && inDegree[id] == 0
  {
  }

  lemma NextDistinct(d: Dag, done: set<NodeID>, after: set<NodeID>, next: seq<NodeID>)
    requires NextQueue(d, done, after, next)
    ensures Distinct(next)
  {
  }

  lemma KeysSize(g: Graph)
    ensures |g.nodes| == |g.View().ups|
  {
    assert g.nodes.Keys == g.View().ups.Keys;
    assert |g.nodes| == |g.nodes.Keys| && |g.View().ups| == |g.View().ups.Keys|;
  }

  /** One round: the current layer's edges are taken off the counts. */
  method Round(g: Graph, queue: seq<NodeID>, inDegree: map<NodeID, int>, ghost done: set<NodeID>)
    returns (counts: map<NodeID, int>, next: seq<NodeID>)
    requires g.Valid() && Distinct(queue) && Counted(g.View(), inDegree, done) && Ready(g.View(), done, Members(queue))
    ensures Counted(g.View(), counts, done + Members(queue))
    ensures NextQueue(g.View(), done, done + Members(queue), next)
  {
    hide Left, Built, Counted, Ready, NextQueue, Members, Distinct;
    ghost var d := g.View();
    counts, next := inDegree, [];
    NoNextYet(d, done);
    ghost var mid := done;
    MembersStep(queue, done, 0);
    for i := 0 to |queue|
      invariant mid == done + Members(queue[..i])
      invariant Counted(d, counts, mid) && NextQueue(d, done, mid, next)
    {
      ReadyApart(d, done, queue, i);
      MembersStep(queue, done, i);
      NextIsReady(d, done, mid, counts, next);
      ghost var before, was := counts, next;
      counts, next := Decrement(g, queue[i], counts, next, mid);
      NextQueueStep(d, done, mid, queue[i], before, counts, was, next);
      mid := mid + {queue[i]};
    }
    assert queue[..|queue|] == queue;
  }

  /** Kahn's algorithm succeeds exactly when no node repeats an upstream, and then layers by longest path. */
  method Layers(g: Graph) returns (r: Layering)
    requires g.Valid()
    ensures r.Layered? <==> forall id :: id in g.View().ups ==> Distinct(g.View().ups[id])
    ensures r.Layered? ==> IsLayering(g.View(), r.layers)
  {
    hide Left, Built, Counted, Ready, AtDepth, NextQueue, IsLayering, StrictlySorted, Distinct;
    ghost var d := g.View();
    var inDegree: map<NodeID, int> := map id | id in g.nodes :: |g.nodes[id].upstreams|;
    StartCounted(d, inDegree);
    var queue := Seed(g, inDegree);
    StartReady(d, queue);
    var layers: seq<seq<NodeID>> := [];
    var placed := 0;
    ghost var done: set<NodeID> := {};
    while queue != []
      invariant Distinct(queue) && done <= d.ups.Keys && placed == |done|
      invariant Counted(d, inDegree, done) && Ready(d, done, Members(queue)) && AtDepth(d, layers, done, Members(queue))
      decreases d.ups.Keys - done
    {
      ghost var was := Members(queue);
      queue := SortIDs(queue);
      assert Members(queue) == was;
      SortedDistinct(queue);
      ReadySize(d, done, queue);
      var next;
      inDegree, next := Round(g, queue, inDegree, done);
      RoundDone(d, layers, done, queue, next);
      NextDistinct(d, done, done + Members(queue), next);
      layers := layers + [queue];
      placed := placed + |queue|;
      done := done + Members(queue);
      queue := next;
    }
    assert Members(queue) == {};
    PlacedTest(d, layers, done);
    KeysSize(g);
    if placed != |g.nodes| { return Cycle; }
    r := Layered(layers);
  }

  // --- Walking the layers ---

  /** Walking the layers in order, exactly the nodes of the first k, and of the next one the first j, have been
    visited. */
  ghost predicate Visited(d: Dag, layers: seq<seq<NodeID>>, k: nat, j: nat, done: set<NodeID>)
    requires Built(d)
  {
    forall id :: id in done <==>
      id in d.ups && (Depth(d, id) < k || (k < |layers| && j <= |layers[k]| && id in layers[k][..j]))
  }

  /** When a node's turn comes, everything upstream of it has been visited. */
  lemma VisitNext(d: Dag, layers: seq<seq<NodeID>>, k: nat, j: nat, done: set<NodeID>)
    requires Built(d) && IsLayering(d, layers) && Visited(d, layers, k, j, done)
    requires k < |layers| && j < |layers[k]|
    ensures var n := layers[k][j];
      && n in d.ups && n !in done && (forall u :: u in d.ups[n] ==> u in done)
      && Visited(d, layers, k, j + 1, done + {n})
  {
    hide Depth, Leq, Built;
    var n := layers[k][j];
    assert n in layers[k];
    DepthIs(d, n);
    assert layers[k][..j + 1] == layers[k][..j] + [n];
  }

  lemma VisitLayer(d: Dag, layers: seq<seq<NodeID>>, k: nat, done: set<NodeID>)
    requires Built(d) && IsLayering(d, layers) && k < |layers| && Visited(d, layers, k, |layers[k]|, done)
    ensures Visited(d, layers, k + 1, 0, done)
  {
    hide Depth, Leq, Built;
    assert layers[k][..|layers[k]|] == layers[k];
  }

  lemma VisitAll(d: Dag, layers: seq<seq<NodeID>>, done: set<NodeID>)
    requires Built(d) && IsLayering(d, layers)
    ensures Visited(d, layers, |layers|, 0, done) ==> done == d.ups.Keys
    ensures Visited(d, layers, 0, 0, {})
  {
    hide Depth, Leq, Built;
  }

  lemma ViewNodes(g: Graph)
    ensures g.View().ups.Keys == g.nodes.Keys
    ensures forall n :: n in g.nodes ==> g.View().ups[n] == g.nodes[n].upstreams
    ensures g.Valid() <==> Built(g.View())
  {
  }
}
