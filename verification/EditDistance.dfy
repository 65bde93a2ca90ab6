/**
  Edit distance between two titles (internal/match/probe.go).

  The reference definition is independent of the dynamic program: the distance
  of s and t is the length of the shortest chain of single-rune insertions,
  deletions and substitutions that leads from s to t.
 */
module EditDistance {

  /** One edit of a rune sequence, at a position. */
  datatype Edit<T> =
    | Insert(at: nat, rune: T)
    | Delete(at: nat)
    | Substitute(at: nat, rune: T)

  predicate Applicable<T>(e: Edit<T>, s: seq<T>) {
    if e.Insert? then e.at <= |s| else e.at < |s|
  }

  function Apply<T>(e: Edit<T>, s: seq<T>): seq<T>
    requires Applicable(e, s)
  {
    match e
    case Insert(i, c) => s[..i] + [c] + s[i..]
    case Delete(i) => s[..i] + s[i + 1..]
    case Substitute(i, c) => s[i := c]
  }

  ghost predicate OneEdit<T(!new)>(s: seq<T>, t: seq<T>) {
    exists e :: Applicable(e, s) && Apply(e, s) == t
  }

  /** A chain of titles from s to t, each one edit away from the one before. */
  ghost predicate Chain<T(!new)>(s: seq<T>, t: seq<T>, chain: seq<seq<T>>) {
    && |chain| > 0 && chain[0] == s && chain[|chain| - 1] == t
    && forall i :: 0 < i < |chain| ==> OneEdit(chain[i - 1], chain[i])
  }

  /** n is the least number of edits that turns s into t. */
  ghost predicate IsDistance<T(!new)>(s: seq<T>, t: seq<T>, n: nat) {
    && (exists chain :: Chain(s, t, chain) && |chain| == n + 1)
    && (forall chain :: Chain(s, t, chain) ==> n + 1 <= |chain|)
  }

  function Min3(a: nat, b: nat, c: nat): nat {
    var m := if b < a then b else a;
    if c < m then c else m
  }

  function Init<T>(s: seq<T>): seq<T>
    requires s != []
  {
    s[..|s| - 1]
  }

  function Last<T>(s: seq<T>): T
    requires s != []
  {
    s[|s| - 1]
  }

  function Cost<T(==)>(x: T, y: T): nat { if x == y then 0 else 1 }

  /** The recurrence the two-row table is filled from. */
  function Dist<T(==)>(s: seq<T>, t: seq<T>): nat
    decreases |s| + |t|
  {
    if s == [] then |t|
    else if t == [] then |s|
    else Min3(Dist(Init(s), t) + 1, Dist(s, Init(t)) + 1, Dist(Init(s), Init(t)) + Cost(Last(s), Last(t)))
  }

  // --- No chain is shorter than Dist ---

  lemma {:induction false} DistSelf<T>(s: seq<T>)
    ensures Dist(s, s) == 0
  {
    if s != [] { DistSelf(Init(s)); }
  }

  lemma {:induction false} DistDropLast<T>(a: seq<T>, b: seq<T>)
    requires b != []
    ensures Dist(a, Init(b)) <= Dist(a, b) + 1
    decreases |a|
  {
    if a != [] { DistDropLast(Init(a), b); }
  }

  lemma InitAfterEdit<T>(e: Edit<T>, b: seq<T>)
    requires Applicable(e, b) && b != []
    ensures e.Insert? && e.at == |b| ==> Init(Apply(e, b)) == b
    ensures e.Delete? && e.at == |b| - 1 ==> Apply(e, b) == Init(b)
    ensures e.Substitute? && e.at == |b| - 1 ==> Init(Apply(e, b)) == Init(b)
    ensures e.at < |b| - 1 || (e.Insert? && e.at == |b| - 1) ==>
              && Applicable(e, Init(b)) && Apply(e, b) != []
              && Init(Apply(e, b)) == Apply(e, Init(b)) && Last(Apply(e, b)) == Last(b)
  {
  }

  /** Editing the target by one rune moves the distance by at most one. */
  lemma {:induction false} DistOneEdit<T>(a: seq<T>, b: seq<T>, e: Edit<T>)
    requires Applicable(e, b)
    ensures Dist(a, Apply(e, b)) <= Dist(a, b) + 1
    decreases |a| + |b|
  {
    if a == [] {
    } else if b == [] {
      assert Init(Apply(e, b)) == b;
    } else {
      InitAfterEdit(e, b);
      DistOneEdit(Init(a), b, e);
      if e.Delete? && e.at == |b| - 1 {
        DistDropLast(a, b);
      } else if e.at < |b| - 1 || (e.Insert? && e.at == |b| - 1) {
        DistOneEdit(a, Init(b), e);
        DistOneEdit(Init(a), Init(b), e);
      }
    }
  }

  lemma {:induction false} ChainAtLeastDist<T(!new)>(s: seq<T>, t: seq<T>, chain: seq<seq<T>>)
    requires Chain(s, t, chain)
    ensures Dist(s, t) + 1 <= |chain|
    decreases |chain|
  {
    if |chain| == 1 {
      DistSelf(s);
    } else {
      var before := chain[|chain| - 2];
      assert OneEdit(before, chain[|chain| - 1]);
      ChainAtLeastDist(s, before, chain[..|chain| - 1]);
      var e :| Applicable(e, before) && Apply(e, before) == t;
      DistOneEdit(s, before, e);
    }
  }

  // --- A chain of Dist edits exists ---

  lemma ChainSnoc<T(!new)>(s: seq<T>, t: seq<T>, chain: seq<seq<T>>, e: Edit<T>)
    requires Chain(s, t, chain) && Applicable(e, t)
    ensures Chain(s, Apply(e, t), chain + [Apply(e, t)])
  {
    assert OneEdit(t, Apply(e, t));
  }

  lemma ChainConcat<T(!new)>(s: seq<T>, t: seq<T>, u: seq<T>, left: seq<seq<T>>, right: seq<seq<T>>)
    requires Chain(s, t, left) && Chain(t, u, right)
    ensures Chain(s, u, left + right[1..])
  {
    var whole := left + right[1..];
    forall i | 0 < i < |whole| ensures OneEdit(whole[i - 1], whole[i]) {
      if i >= |left| {
        assert whole[i] == right[i - |left| + 1] && whole[i - 1] == right[i - |left|];
      }
    }
  }

  lemma EditUnderLast<T(!new)>(s: seq<T>, t: seq<T>, c: T)
    requires OneEdit(s, t)
    ensures OneEdit(s + [c], t + [c])
  {
    var e :| Applicable(e, s) && Apply(e, s) == t;
    assert Apply(e, s + [c]) == t + [c];
  }

  function Suffixed<T>(chain: seq<seq<T>>, c: T): seq<seq<T>> {
    seq(|chain|, i requires 0 <= i < |chain| => chain[i] + [c])
  }

  lemma ChainUnderLast<T(!new)>(s: seq<T>, t: seq<T>, chain: seq<seq<T>>, c: T)
    requires Chain(s, t, chain)
    ensures Chain(s + [c], t + [c], Suffixed(chain, c))
  {
    var lifted := Suffixed(chain, c);
    forall i | 0 < i < |lifted| ensures OneEdit(lifted[i - 1], lifted[i]) {
      EditUnderLast(chain[i - 1], chain[i], c);
    }
  }

  lemma AppendLast<T(!new)>(s: seq<T>, t: seq<T>, front: seq<seq<T>>)
    requires t != [] && Chain(s, Init(t), front)
    ensures Chain(s, t, front + [t])
  {
    var e := Insert(|t| - 1, Last(t));
    assert Apply(e, Init(t)) == t;
    ChainSnoc(s, Init(t), front, e);
  }

  lemma DropLastFirst<T(!new)>(s: seq<T>, t: seq<T>, back: seq<seq<T>>)
    requires s != [] && Chain(Init(s), t, back)
    ensures Chain(s, t, [s, Init(s)] + back[1..])
  {
    var e := Delete(|s| - 1);
    assert Apply(e, s) == Init(s);
    ChainSnoc(s, s, [s], e);
    assert [s] + [Init(s)] == [s, Init(s)];
    ChainConcat(s, Init(s), t, [s, Init(s)], back);
  }

  lemma ReplaceLast<T(!new)>(s: seq<T>, t: seq<T>, front: seq<seq<T>>) returns (chain: seq<seq<T>>)
    requires s != [] && t != [] && Chain(Init(s), Init(t), front)
    ensures Chain(s, t, chain) && |chain| == |front| + Cost(Last(s), Last(t))
  {
    ChainUnderLast(Init(s), Init(t), front, Last(s));
    assert Init(s) + [Last(s)] == s && Init(t) + [Last(t)] == t;
    chain := Suffixed(front, Last(s));
    if Last(s) != Last(t) {
      var e := Substitute(|t| - 1, Last(t));
      assert Apply(e, Init(t) + [Last(s)]) == t;
      ChainSnoc(s, Init(t) + [Last(s)], chain, e);
      chain := chain + [t];
    }
  }

  lemma {:induction false} ShortestChain<T(!new)>(s: seq<T>, t: seq<T>) returns (chain: seq<seq<T>>)
    ensures Chain(s, t, chain) && |chain| == Dist(s, t) + 1
    decreases |s| + |t|
  {
    if s == [] && t == [] {
      chain := [s];
    } else if s == [] || (t != [] && Dist(s, t) == Dist(s, Init(t)) + 1) {
      var front := ShortestChain(s, Init(t));
      AppendLast(s, t, front);
      chain := front + [t];
    } else if t == [] || Dist(s, t) == Dist(Init(s), t) + 1 {
      var back := ShortestChain(Init(s), t);
      DropLastFirst(s, t, back);
      chain := [s, Init(s)] + back[1..];
    } else {
      var front := ShortestChain(Init(s), Init(t));
      chain := ReplaceLast(s, t, front);
    }
  }

  /** The recurrence computes the minimum number of edits, for every pair of titles. */
  lemma DistIsMinimum<T(!new)>(s: seq<T>, t: seq<T>)
    ensures IsDistance(s, t, Dist(s, t))
  {
    var chain := ShortestChain(s, t);
    forall other | Chain(s, t, other) ensures Dist(s, t) + 1 <= |other| {
      ChainAtLeastDist(s, t, other);
    }
  }

  // --- The minimum is a metric ---

  lemma InsertUndone<T>(s: seq<T>, i: nat, c: T)
    requires i <= |s|
    ensures Apply(Delete(i), Apply(Insert(i, c), s)) == s
  {
  }

  lemma DeleteUndone<T>(s: seq<T>, i: nat)
    requires i < |s|
    ensures Apply(Insert(i, s[i]), Apply(Delete(i), s)) == s
  {
  }

  lemma EditReversible<T(!new)>(s: seq<T>, t: seq<T>)
    requires OneEdit(s, t)
    ensures OneEdit(t, s)
  {
    var e :| Applicable(e, s) && Apply(e, s) == t;
    match e
    case Insert(i, c) => InsertUndone(s, i, c);
    case Delete(i) => DeleteUndone(s, i);
    case Substitute(i, _) => assert Apply(Substitute(i, s[i]), t) == s;
  }

  lemma DistAtMostReverse<T(!new)>(s: seq<T>, t: seq<T>)
    ensures Dist(t, s) <= Dist(s, t)
  {
    var chain := ShortestChain(s, t);
    var n := |chain|;
    var back := seq(n, i requires 0 <= i < n => chain[n - 1 - i]);
    forall i | 0 < i < n ensures OneEdit(back[i - 1], back[i]) {
      EditReversible(chain[n - 1 - i], chain[n - i]);
    }
    ChainAtLeastDist(t, s, back);
  }

  lemma DistIsMetric<T(!new)>(s: seq<T>, t: seq<T>, u: seq<T>)
    ensures Dist(s, t) == 0 <==> s == t
    ensures Dist(s, t) == Dist(t, s)
    ensures Dist(s, u) <= Dist(s, t) + Dist(t, u)
  {
    DistSelf(s);
    var st := ShortestChain(s, t);
    DistAtMostReverse(s, t);
    DistAtMostReverse(t, s);
    var tu := ShortestChain(t, u);
    ChainConcat(s, t, u, st, tu);
    ChainAtLeastDist(s, u, st + tu[1..]);
  }

  // --- The two-row program ---

  /** Entry (i, j) of the table: the distance between the two prefixes. */
  function Cell<T(==)>(ra: seq<T>, rb: seq<T>, i: nat, j: nat): nat
    requires i <= |ra| && j <= |rb|
  {
    Dist(ra[..i], rb[..j])
  }

  lemma CellStep<T>(ra: seq<T>, rb: seq<T>, i: nat, j: nat)
    requires 0 < i <= |ra| && 0 < j <= |rb|
    ensures Cell(ra, rb, i, j) ==
      Min3(Cell(ra, rb, i - 1, j) + 1, Cell(ra, rb, i, j - 1) + 1, Cell(ra, rb, i - 1, j - 1) +
        Cost(ra[i - 1], rb[j - 1]))
  {
    assert Init(ra[..i]) == ra[..i - 1];
    assert Init(rb[..j]) == rb[..j - 1];
  }

  method Levenshtein<T(==)>(ra: seq<T>, rb: seq<T>) returns (d: nat)
    ensures d == Dist(ra, rb)
  {
    if |ra| == 0 { return |rb|; }
    if |rb| == 0 { return |ra|; }
    var prev := new nat[|rb| + 1];
    var curr := new nat[|rb| + 1];
    for j := 0 to |rb| + 1
      invariant forall k :: 0 <= k < j ==> prev[k] == k
    {
      prev[j] := j;
    }
    for i := 1 to |ra| + 1
      invariant prev != curr && fresh(prev) && fresh(curr)
      invariant prev.Length == curr.Length == |rb| + 1
      invariant forall k :: 0 <= k <= |rb| ==> prev[k] == Cell(ra, rb, i - 1, k)
    {
      curr[0] := i;
      for j := 1 to |rb| + 1
        invariant forall k :: 0 <= k <= |rb| ==> prev[k] == Cell(ra, rb, i - 1, k)
        invariant forall k :: 0 <= k < j ==> curr[k] == Cell(ra, rb, i, k)
      {
        var cost := 1;
        if ra[i - 1] == rb[j - 1] { cost := 0; }
        CellStep(ra, rb, i, j);
        curr[j] := Min3(prev[j] + 1, curr[j - 1] + 1, prev[j - 1] + cost);
      }
      prev, curr := curr, prev;
    }
    assert ra[..|ra|] == ra && rb[..|rb|] == rb;
    d := prev[|rb|];
  }
}
