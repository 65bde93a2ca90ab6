/**
  The pipeline graph (internal/dag/graph.go): nodes keyed by ID, in insertion
  order, each naming its upstream nodes.
 */
module Graph {

  type NodeID = string

  // --- The byte-wise order Go sorts IDs by ---

  predicate Leq(a: NodeID, b: NodeID) {
    a == [] || (b != [] && (a[0] < b[0] || (a[0] == b[0] && Leq(a[1..], b[1..]))))
  }

  predicate Less(a: NodeID, b: NodeID) { a != b && Leq(a, b) }

  lemma {:induction false} LeqTotal(a: NodeID, b: NodeID)
    ensures Leq(a, b) || Leq(b, a)
    ensures Leq(a, b) && Leq(b, a) ==> a == b
  {
    if a != [] && b != [] && a[0] == b[0] {
      LeqTotal(a[1..], b[1..]);
      if a[1..] == b[1..] {
        assert a == [a[0]] + a[1..] && b == [b[0]] + b[1..];
      }
    }
  }

  lemma {:induction false} LeqTransitive(a: NodeID, b: NodeID, c: NodeID)
    requires Leq(a, b) && Leq(b, c)
    ensures Leq(a, c)
  {
    if a != [] && a[0] == b[0] == c[0] {
      LeqTransitive(a[1..], b[1..], c[1..]);
    }
  }

  /** One ID is less than another if it is a proper prefix, or has the smaller byte where they first differ. */
  lemma {:induction false} LessIff(a: NodeID, b: NodeID)
    ensures Less(a, b) <==> exists k: nat ::
      k <= |a| && k < |b| && a[..k] == b[..k] && (k == |a| || a[k] < b[k])
  {
    if Less(a, b) {
      var k := FirstDifference(a, b);
    }
    if k: nat :| k <= |a| && k < |b| && a[..k] == b[..k] && (k == |a| || a[k] < b[k]) {
      DifferenceDecides(a, b, k);
    }
  }

  lemma {:induction false} FirstDifference(a: NodeID, b: NodeID) returns (k: nat)
    requires Less(a, b)
    ensures k <= |a| && k < |b| && a[..k] == b[..k] && (k == |a| || a[k] < b[k])
  {
    k := 0;
    if a != [] && a[0] == b[0] {
      assert a == [a[0]] + a[1..] && b == [b[0]] + b[1..];
      var n := FirstDifference(a[1..], b[1..]);
      k := n + 1;
      assert a[..k] == [a[0]] + a[1..][..n] && b[..k] == [b[0]] + b[1..][..n];
    }
  }

  lemma {:induction false} DifferenceDecides(a: NodeID, b: NodeID, k: nat)
    requires k <= |a| && k < |b| && a[..k] == b[..k] && (k == |a| || a[k] < b[k])
    ensures Less(a, b)
  {
    if k > 0 {
      assert a[0] == a[..k][0] == b[..k][0] == b[0];
      assert a[1..][..k - 1] == a[..k][1..] && b[1..][..k - 1] == b[..k][1..];
      DifferenceDecides(a[1..], b[1..], k - 1);
    }
  }

  lemma LessTransitive(a: NodeID, b: NodeID, c: NodeID)
    requires Less(a, b) && Less(b, c)
    ensures Less(a, c)
  {
    LeqTransitive(a, b, c);
    LeqTotal(a, b);
  }

  ghost predicate StrictlySorted(ids: seq<NodeID>) {
    forall i, j :: 0 <= i < j < |ids| ==> Less(ids[i], ids[j])
  }

  ghost predicate Distinct<T>(s: seq<T>) {
    forall i, j :: 0 <= i < j < |s| ==> s[i] != s[j]
  }

  /** slices.Sort on IDs that occur once each. */
  method SortIDs(ids: seq<NodeID>) returns (sorted: seq<NodeID>)
    requires Distinct(ids)
    ensures StrictlySorted(sorted) && |sorted| == |ids|
    ensures forall x :: x in sorted <==> x in ids
  {
    sorted := [];
    for k := 0 to |ids|
      invariant |sorted| == k && StrictlySorted(sorted)
      invariant forall x :: x in sorted <==> x in ids[..k]
    {
      var at := 0;
      while at < |sorted| && Leq(sorted[at], ids[k])
        invariant at <= |sorted|
        invariant forall i :: 0 <= i < at ==> Leq(sorted[i], ids[k])
      {
        at := at + 1;
      }
      InsertSorted(sorted, at, ids[k]);
      sorted := sorted[..at] + [ids[k]] + sorted[at..];
      assert ids[..k + 1] == ids[..k] + [ids[k]];
    }
    assert ids[..|ids|] == ids;
  }

  lemma InsertSorted(s: seq<NodeID>, at: nat, x: NodeID)
    requires StrictlySorted(s) && x !in s && at <= |s|
    requires forall i :: 0 <= i < at ==> Leq(s[i], x)
    requires at < |s| ==> !Leq(s[at], x)
    ensures StrictlySorted(s[..at] + [x] + s[at..])
  {
    forall i | at <= i < |s| ensures Less(x, s[i]) {
      LeqTotal(s[at], x);
      if i > at { LessTransitive(x, s[at], s[i]); }
    }
  }

  // --- Graphs ---

  datatype Node = Node(id: NodeID, upstreams: seq<NodeID>)

  /** What the analyses read of a graph: every node's upstreams, and the insertion order. */
  datatype Dag = Dag(ups: map<NodeID, seq<NodeID>>, order: seq<NodeID>)

  /** The graphs AddNode builds: every upstream was added before its consumer. */
  ghost predicate Built(d: Dag) {
    && Distinct(d.order)
    && (forall id :: id in d.ups <==> id in d.order)
    && (forall i, u :: 0 <= i < |d.order| && u in d.ups[d.order[i]] ==> u in d.order[..i])
  }

  ghost function Downs(d: Dag, id: NodeID): set<NodeID> {
    set n | n in d.ups && id in d.ups[n]
  }

  class Graph {
    var nodes: map<NodeID, Node>
    var order: seq<NodeID>

    function View(): Dag
      reads this
    {
      Dag(map id | id in nodes :: nodes[id].upstreams, order)
    }

    ghost predicate Valid()
      reads this
    {
      Built(View())
    }

    constructor ()
      ensures Valid() && View() == Dag(map[], [])
    {
      nodes, order := map[], [];
    }

    method AddNode(n: Node) returns (ok: bool)
      requires Valid()
      modifies this
      ensures Valid()
      ensures ok <==> n.id !in old(nodes) && forall u :: u in n.upstreams ==> u in old(nodes)
      ensures ok ==> View() == Dag(old(View()).ups[n.id := n.upstreams], old(order) + [n.id])
      ensures !ok ==> View() == old(View())
    {
      if n.id in nodes { return false; }
      for k := 0 to |n.upstreams|
        invariant forall j :: 0 <= j < k ==> n.upstreams[j] in nodes
        invariant View() == old(View())
      {
        if n.upstreams[k] !in nodes { return false; }
      }
      ExtendBuilt(View(), n.id, n.upstreams);
      nodes := nodes[n.id := n];
      order := order + [n.id];
      assert View().ups == old(View()).ups[n.id := n.upstreams];
      ok := true;
    }

    /** The consumers of a node, in the arbitrary order of Go's map iteration. */
    method Downstreams(id: NodeID) returns (out: seq<NodeID>)
      ensures Distinct(out)
      ensures forall n :: n in out <==> n in Downs(View(), id)
    {
      out := [];
      var left := nodes.Keys;
      while left != {}
        invariant left <= nodes.Keys
        invariant Distinct(out)
        invariant forall n :: n in out <==> n in Downs(View(), id) && n !in left
      {
        var n :| n in left;
        left := left - {n};
        if id in nodes[n].upstreams {
          out := out + [n];
        }
      }
    }
  }

  lemma ExtendBuilt(d: Dag, id: NodeID, ups: seq<NodeID>)
    requires Built(d) && id !in d.ups && forall u :: u in ups ==> u in d.ups
    ensures Built(Dag(d.ups[id := ups], d.order + [id]))
  {
    var e := Dag(d.ups[id := ups], d.order + [id]);
    forall i, u | 0 <= i < |e.order| && u in e.ups[e.order[i]] ensures u in e.order[..i] {
      if i < |d.order| {
        assert e.order[..i] == d.order[..i];
      } else {
        assert e.order[..i] == d.order;
      }
    }
  }

  // --- Paths ---

  /** A walk along the edges, each node an upstream of the next. */
  ghost predicate Path(d: Dag, p: seq<NodeID>) {
    && p != []
    && (forall i :: 0 <= i < |p| ==> p[i] in d.ups)
    && (forall i :: 0 < i < |p| ==> p[i - 1] in d.ups[p[i]])
  }

  function IndexOf(order: seq<NodeID>, id: NodeID): (i: nat)
    requires id in order
    ensures i < |order| && order[i] == id
  {
    if order[0] == id then 0 else 1 + IndexOf(order[1..], id)
  }

  lemma EdgeForward(d: Dag, id: NodeID, up: NodeID)
    requires Built(d) && id in d.ups && up in d.ups[id]
    ensures up in d.ups && IndexOf(d.order, up) < IndexOf(d.order, id)
  {
    var i := IndexOf(d.order, id);
    assert up in d.ups[d.order[i]];
    var j :| 0 <= j < i && d.order[j] == up;
    assert IndexOf(d.order, up) == j;
  }

  /** Paths only go forward, so no node comes twice on one. */
  lemma {:induction false} PathForward(d: Dag, p: seq<NodeID>, i: nat, j: nat)
    requires Built(d) && Path(d, p) && i < j < |p|
    ensures IndexOf(d.order, p[i]) < IndexOf(d.order, p[j])
    decreases j
  {
    EdgeForward(d, p[j], p[j - 1]);
    if i < j - 1 {
      PathForward(d, p, i, j - 1);
    }
  }
}
