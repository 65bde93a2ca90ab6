/** Probing a title against a list, and the ranking of the candidates (internal/match/probe.go). */
module Candidates {
  import opened Graph
  import EditDistance

  datatype Title = Title(norm: string, year: int)

  /** One list entry evaluated against a probed title. */
  datatype Candidate = Candidate(
    norm: string,
    year: int,
    matched: bool,
    titleMatched: bool,
    distance: nat,
    punctuationOnly: bool
  )

  /** What candidates are ranked by. */
  datatype Place = Place(matched: bool, distance: nat, norm: string)

  function PlaceOf(c: Candidate): Place { Place(c.matched, c.distance, c.norm) }

  predicate Before(a: Place, b: Place) {
    if a.matched != b.matched then a.matched
    else if a.distance != b.distance then a.distance < b.distance
    else Less(a.norm, b.norm)
  }

  predicate Ranks(a: Place, b: Place) { !Before(b, a) }

  lemma RanksOrder(a: Place, b: Place, c: Place)
    ensures Ranks(a, b) || Ranks(b, a)
    ensures Ranks(a, b) && Ranks(b, a) ==> a == b
    ensures Ranks(a, b) && Ranks(b, c) ==> Ranks(a, c)
    ensures Before(a, b) ==> Ranks(a, b) && a != b
  {
    hide Leq;
    LeqTotal(a.norm, b.norm);
    LeqTotal(b.norm, c.norm);
    LeqTotal(a.norm, c.norm);
    if Leq(a.norm, b.norm) && Leq(b.norm, c.norm) { LeqTransitive(a.norm, b.norm, c.norm); }
  }

  ghost predicate Ranked(cs: seq<Candidate>) {
    forall i, j :: 0 <= i < j < |cs| ==> Ranks(PlaceOf(cs[i]), PlaceOf(cs[j]))
  }

  /** The candidates that tie at a place, in order. */
  ghost function At(cs: seq<Candidate>, p: Place): seq<Candidate> {
    if cs == [] then []
    else (if PlaceOf(cs[0]) == p then [cs[0]] else []) + At(cs[1..], p)
  }

  /** The same candidates, and those that tie in the same order. */
  ghost predicate Stable(cs: seq<Candidate>, ranked: seq<Candidate>) {
    forall p :: At(cs, p) == At(ranked, p)
  }

  lemma {:induction false} AtSplit(a: seq<Candidate>, b: seq<Candidate>, p: Place)
    ensures At(a + b, p) == At(a, p) + At(b, p)
  {
    if a == [] {
      assert a + b == b;
    } else {
      assert (a + b)[1..] == a[1..] + b;
      AtSplit(a[1..], b, p);
    }
  }

  lemma {:induction false} AtIs(cs: seq<Candidate>, p: Place, c: Candidate)
    ensures c in At(cs, p) <==> c in cs && PlaceOf(c) == p
  {
    if cs != [] { AtIs(cs[1..], p, c); }
  }

  /** Exchanging neighbours at different places moves nothing past its equals. */
  lemma SwapStable(cs: seq<Candidate>, j: nat)
    requires 0 < j < |cs| && PlaceOf(cs[j - 1]) != PlaceOf(cs[j])
    ensures Stable(cs, cs[j - 1 := cs[j]][j := cs[j - 1]])
  {
    hide PlaceOf;
    var x, y := cs[j - 1], cs[j];
    var swapped := cs[j - 1 := y][j := x];
    var front, back := cs[..j - 1], cs[j + 1..];
    assert cs == front + ([x, y] + back) && swapped == front + ([y, x] + back);
    forall p ensures At(cs, p) == At(swapped, p) {
      AtSplit(front, [x, y] + back, p);
      AtSplit(front, [y, x] + back, p);
      AtSplit([x, y], back, p);
      AtSplit([y, x], back, p);
      assert [x, y][1..] == [y] && [y, x][1..] == [x] && [x][1..] == [] && [y][1..] == [];
    }
  }

  lemma AtTail(a: seq<Candidate>, b: seq<Candidate>, p: Place)
    requires a != [] && b != [] && PlaceOf(a[0]) == PlaceOf(b[0]) && At(a, p) == At(b, p)
    ensures PlaceOf(a[0]) == p ==> a[0] == b[0]
    ensures At(a[1..], p) == At(b[1..], p)
  {
    hide PlaceOf;
    if PlaceOf(a[0]) == p {
      assert At(a, p) == [a[0]] + At(a[1..], p) && At(b, p) == [b[0]] + At(b[1..], p);
      assert At(a, p)[0] == a[0] && At(b, p)[0] == b[0];
      assert At(a, p)[1..] == At(a[1..], p) && At(b, p)[1..] == At(b[1..], p);
    } else {
      assert At(a, p) == At(a[1..], p) && At(b, p) == At(b[1..], p);
    }
  }

  /** There is only one ranked order that keeps ties as they were. */
  lemma {:induction false} RankingUnique(a: seq<Candidate>, b: seq<Candidate>)
    requires Ranked(a) && Ranked(b) && Stable(a, b)
    ensures a == b
  {
    hide PlaceOf, Ranks;
    if a == [] {
      if b != [] {
        AtIs(b, PlaceOf(b[0]), b[0]);
        AtIs(a, PlaceOf(b[0]), b[0]);
      }
    } else {
      var p := PlaceOf(a[0]);
      AtIs(a, p, a[0]);
      AtIs(b, p, a[0]);
      FirstPlace(a, b);
      AtTail(a, b, p);
      forall q ensures At(a[1..], q) == At(b[1..], q) {
        AtTail(a, b, q);
      }
      RankingUnique(a[1..], b[1..]);
    }
  }

  lemma FirstPlace(a: seq<Candidate>, b: seq<Candidate>)
    requires a != [] && Ranked(a) && Ranked(b) && Stable(a, b)
    ensures b != [] && PlaceOf(a[0]) == PlaceOf(b[0])
  {
    hide PlaceOf, Ranks;
    var p := PlaceOf(a[0]);
    AtIs(a, p, a[0]);
    AtIs(b, p, a[0]);
    var q := PlaceOf(b[0]);
    AtIs(b, q, b[0]);
    AtIs(a, q, b[0]);
    RanksOrder(p, q, p);
  }

  /** The insertion sort of sortCandidates, in place. */
  method SortCandidates(cs: array<Candidate>)
    modifies cs
    ensures Ranked(cs[..]) && Stable(old(cs[..]), cs[..])
  {
    hide PlaceOf, Ranks, At;
    var i := 1;
    while i < cs.Length
      invariant 1 <= i && (i <= cs.Length || cs.Length == 0)
      invariant i <= cs.Length ==> Ranked(cs[..i])
      invariant Stable(old(cs[..]), cs[..])
    {
      Raise(cs, i);
      i := i + 1;
    }
  }

  /** Its inner loop: candidate i moves up among the ranked ones before it. */
  method Raise(cs: array<Candidate>, i: nat)
    requires i < cs.Length && Ranked(cs[..i])
    modifies cs
    ensures Ranked(cs[..i + 1]) && Stable(old(cs[..]), cs[..])
  {
    hide PlaceOf, Ranks, Before, At;
    var j := i;
    while j > 0 && Before(PlaceOf(cs[j]), PlaceOf(cs[j - 1]))
      invariant 0 <= j <= i
      invariant forall p, q :: 0 <= p < q <= i && q != j ==> Ranks(PlaceOf(cs[p]), PlaceOf(cs[q]))
      invariant Stable(old(cs[..]), cs[..])
    {
      RanksOrder(PlaceOf(cs[j]), PlaceOf(cs[j - 1]), PlaceOf(cs[j]));
      SwapStable(cs[..], j);
      ghost var swapped := cs[..][j - 1 := cs[j]][j := cs[j - 1]];
      cs[j], cs[j - 1] := cs[j - 1], cs[j];
      assert cs[..] == swapped;
      j := j - 1;
    }
    forall p | 0 <= p < j ensures Ranks(PlaceOf(cs[p]), PlaceOf(cs[j])) {
      Settled(PlaceOf(cs[j - 1]), PlaceOf(cs[j]));
      RanksOrder(PlaceOf(cs[p]), PlaceOf(cs[j - 1]), PlaceOf(cs[j]));
    }
  }

  lemma Settled(a: Place, b: Place)
    requires !Before(b, a)
    ensures Ranks(a, b)
  {
  }

  // --- The probe ---

  predicate IsAlnum(r: char) { 'a' <= r <= 'z' || '0' <= r <= '9' }

  function StripToAlnum(s: string): string {
    if s == [] then []
    else
      var n := |s| - 1;
      StripToAlnum(s[..n]) + if IsAlnum(s[n]) then [s[n]] else []
  }

  method Strip(s: string) returns (out: string)
    ensures out == StripToAlnum(s)
  {
    out := [];
    for i := 0 to |s|
      invariant out == StripToAlnum(s[..i])
    {
      assert s[..i + 1][..i] == s[..i];
      if IsAlnum(s[i]) { out := out + [s[i]]; }
    }
    assert s[..|s|] == s;
  }

  method DiffersOnlyByPunctuation(a: string, b: string) returns (r: bool)
    ensures r <==> a != b && StripToAlnum(a) == StripToAlnum(b)
  {
    if a == b { return false; }
    var left := Strip(a);
    var right := Strip(b);
    r := left == right;
  }

  /** The fuzzy match of titles, and the comparison of years. */
  datatype Matcher = Matcher(fuzzy: Title -> bool, years: Title -> bool) {
    predicate Matches(t: Title) { fuzzy(t) && years(t) }
  }

  function Evaluate(input: string, t: Title, m: Matcher): Candidate {
    Candidate(t.norm, t.year, m.Matches(t), m.fuzzy(t), EditDistance.Dist(input, t.norm),
              input != t.norm && StripToAlnum(input) == StripToAlnum(t.norm))
  }

  function Evaluated(input: string, list: seq<Title>, m: Matcher): seq<Candidate> {
    seq(|list|, i requires 0 <= i < |list| => Evaluate(input, list[i], m))
  }

  ghost predicate FirstMatch(list: seq<Title>, m: Matcher, i: int) {
    0 <= i < |list| && m.Matches(list[i]) && forall j :: 0 <= j < i ==> !m.Matches(list[j])
  }

  method Probe(input: string, list: seq<Title>, m: Matcher)
    returns (matched: bool, matchedBy: string, candidates: seq<Candidate>)
    ensures matched <==> exists t :: t in list && m.Matches(t)
    ensures matched ==> exists i :: FirstMatch(list, m, i) && matchedBy == list[i].norm
    ensures Ranked(candidates) && Stable(Evaluated(input, list, m), candidates)
  {
    hide StripToAlnum;
    matched, matchedBy, candidates := false, "", [];
    for i := 0 to |list|
      invariant candidates == Evaluated(input, list[..i], m)
      invariant matched <==> exists t :: t in list[..i] && m.Matches(t)
      invariant matched ==> exists k :: FirstMatch(list, m, k) && matchedBy == list[k].norm
    {
      assert list[..i + 1] == list[..i] + [list[i]];
      var titleMatched := m.fuzzy(list[i]);
      var distance := EditDistance.Levenshtein(input, list[i].norm);
      var punctuation := DiffersOnlyByPunctuation(input, list[i].norm);
      var c := Candidate(list[i].norm, list[i].year, titleMatched &&
        m.years(list[i]), titleMatched, distance, punctuation);
      if c.matched && !matched {
        assert forall j :: 0 <= j < i ==> list[j] in list[..i];
        assert FirstMatch(list, m, i);
        matched, matchedBy := true, c.norm;
      }
      candidates := candidates + [c];
    }
    assert list[..|list|] == list;
    var cs := new Candidate[|candidates|](i requires 0 <= i < |candidates| => candidates[i]);
    assert cs[..] == candidates;
    SortCandidates(cs);
    candidates := cs[..];
  }

  /** The first candidate shown is a match if there is one; of its kind none is nearer, and as near none has a lesser
    title. */
  lemma NearestLeads(input: string, list: seq<Title>, m: Matcher, ranked: seq<Candidate>, t: Title)
    requires Ranked(ranked) && Stable(Evaluated(input, list, m), ranked) && t in list
    ensures ranked != [] && (m.Matches(t) ==> ranked[0].matched)
    ensures ranked[0].matched == m.Matches(t) ==>
      EditDistance.Dist(input, ranked[0].norm) <= EditDistance.Dist(input, t.norm)
    ensures (ranked[0].matched == m.Matches(t) &&
             EditDistance.Dist(input, ranked[0].norm) == EditDistance.Dist(input, t.norm)) ==>
      ranked[0].norm == t.norm || Less(ranked[0].norm, t.norm)
  {
    var cs, c := Evaluated(input, list, m), Evaluate(input, t, m);
    var i :| 0 <= i < |list| && list[i] == t;
    assert cs[i] == c;
    AtIs(cs, PlaceOf(c), c);
    AtIs(ranked, PlaceOf(c), c);
    AtIs(ranked, PlaceOf(ranked[0]), ranked[0]);
    AtIs(cs, PlaceOf(ranked[0]), ranked[0]);
    var k :| 0 <= k < |ranked| && ranked[k] == c;
    RanksOrder(PlaceOf(c), PlaceOf(c), PlaceOf(c));
    RanksOrder(PlaceOf(ranked[0]), PlaceOf(c), PlaceOf(c));
    LeqTotal(ranked[0].norm, c.norm);
  }
}
