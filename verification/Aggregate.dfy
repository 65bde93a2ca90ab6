/** The counters a run reports (internal/executor/aggregate.go). */
module Aggregate {
  import opened Graph
  import opened Entries
  import opened Dataflow

  // --- The order edges are walked in ---

  predicate EdgeLess(a: Edge, b: Edge) {
    if a.0 != b.0 then Less(a.0, b.0) else Less(a.1, b.1)
  }

  predicate EdgeLeq(a: Edge, b: Edge) { !EdgeLess(b, a) }

  lemma EdgeLeqOrder(a: Edge, b: Edge, c: Edge)
    ensures EdgeLeq(a, b) && EdgeLeq(b, c) ==> EdgeLeq(a, c)
    ensures EdgeLeq(a, b) && EdgeLeq(b, a) ==> a == b
    ensures EdgeLess(a, b) ==> EdgeLeq(a, b)
  {
    hide Leq;
    LeqTotal(a.0, b.0);
    LeqTotal(b.0, c.0);
    LeqTotal(a.1, b.1);
    LeqTotal(b.1, c.1);
    LeqTotal(a.0, c.0);
    LeqTotal(a.1, c.1);
    if Leq(a.0, b.0) && Leq(b.0, c.0) { LeqTransitive(a.0, b.0, c.0); }
    if Leq(a.1, b.1) && Leq(b.1, c.1) { LeqTransitive(a.1, b.1, c.1); }
  }

  ghost predicate SortedEdges(keys: seq<Edge>) {
    forall i, j :: 0 <= i < j < |keys| ==> EdgeLeq(keys[i], keys[j])
  }

  /** The insertion sort of sortEdgeKeys, in place. */
  method SortEdgeKeys(keys: array<Edge>)
    modifies keys
    ensures SortedEdges(keys[..])
    ensures multiset(keys[..]) == multiset(old(keys[..]))
  {
    hide EdgeLess, EdgeLeq;
    var i := 1;
    while i < keys.Length
      invariant 1 <= i && (i <= keys.Length || keys.Length == 0)
      invariant i <= keys.Length ==> SortedEdges(keys[..i])
      invariant multiset(keys[..]) == multiset(old(keys[..]))
    {
      Insert(keys, i);
      i := i + 1;
    }
  }

  /** Its inner loop: moves key i down among the i sorted keys before it. */
  method Insert(keys: array<Edge>, i: nat)
    requires i < keys.Length && SortedEdges(keys[..i])
    modifies keys
    ensures SortedEdges(keys[..i + 1])
    ensures multiset(keys[..]) == multiset(old(keys[..]))
  {
    hide EdgeLess, EdgeLeq;
    var j := i;
    while j > 0 && EdgeLess(keys[j], keys[j - 1])
      invariant 0 <= j <= i
      invariant forall p, q :: 0 <= p < q <= i && q != j ==> EdgeLeq(keys[p], keys[q])
      invariant multiset(keys[..]) == multiset(old(keys[..]))
    {
      LessLeq(keys[j], keys[j - 1]);
      keys[j], keys[j - 1] := keys[j - 1], keys[j];
      j := j - 1;
    }
    forall p | 0 <= p < j ensures EdgeLeq(keys[p], keys[j]) {
      NotLess(keys[j], keys[j - 1]);
      EdgeLeqOrder(keys[p], keys[j - 1], keys[j]);
    }
  }

  lemma LessLeq(a: Edge, b: Edge)
    requires EdgeLess(a, b)
    ensures EdgeLeq(a, b)
  {
    EdgeLeqOrder(a, b, a);
  }

  lemma NotLess(a: Edge, b: Edge)
    requires !EdgeLess(a, b)
    ensures EdgeLeq(b, a) && EdgeLeq(b, b)
  {
    EdgeLeqOrder(b, b, b);
  }

  // --- What is counted ---

  function Rank(s: State): nat {
    match s
    case Accepted => 3
    case Rejected => 2
    case Failed => 1
    case Undecided => 0
  }

  /** Copies of an entry share its URL; an entry without one only counts as itself. */
  datatype Key = ByURL(url: string) | ByPointer(entry: Entry)

  function KeyOf(e: Entry): Key { if e.url == "" then ByPointer(e) else ByURL(e.url) }

  /** A counted copy of an entry, with the state it counts as. */
  datatype Copy = Copy(entry: Entry, key: Key, state: State)

  /** Entries not to be counted, and entries that stopped short. */
  datatype Marks = Marks(discarded: set<Entry>, superseded: set<Entry>, dropped: set<Entry>)

  function Copies(walk: seq<Entry>, marks: Marks): seq<Copy>
    reads set e | e in walk
  {
    if walk == [] then []
    else
      var e := walk[|walk| - 1];
      Copies(walk[..|walk| - 1], marks)
      + if e in marks.discarded || e in marks.superseded then []
        else [Copy(e, KeyOf(e), if e in marks.dropped then Undecided else e.state)]
  }

  /** The keys of the copies, in the order they are first met. */
  function Keys(copies: seq<Copy>): seq<Key> {
    if copies == [] then []
    else
      var n := |copies| - 1;
      var rest := Keys(copies[..n]);
      if copies[n].key in rest then rest else rest + [copies[n].key]
  }

  /** The first of the copies with this key that no other outranks; -1 if there is none. */
  function Champion(copies: seq<Copy>, k: Key): (c: int)
    ensures -1 <= c < |copies|
  {
    if copies == [] then -1
    else
      var n := |copies| - 1;
      var c := Champion(copies[..n], k);
      if copies[n].key != k then c
      else if c == -1 || Rank(copies[n].state) > Rank(copies[c].state) then n
      else c
  }

  lemma {:induction false} KeysAre(copies: seq<Copy>)
    ensures forall i, j :: 0 <= i < j < |Keys(copies)| ==> Keys(copies)[i] != Keys(copies)[j]
    ensures forall i :: 0 <= i < |copies| ==> copies[i].key in Keys(copies)
    ensures forall k :: k in Keys(copies) ==> Champion(copies, k) >= 0
  {
    if copies != [] {
      KeysAre(copies[..|copies| - 1]);
    }
  }

  lemma {:induction false} ChampionIs(copies: seq<Copy>, k: Key)
    ensures Champion(copies, k) == -1 <==> forall i :: 0 <= i < |copies| ==> copies[i].key != k
    ensures Champion(copies, k) >= 0 ==>
      var c := Champion(copies, k);
      && copies[c].key == k
      && (forall i :: 0 <= i < |copies| && copies[i].key == k ==> Rank(copies[i].state) <= Rank(copies[c].state))
      && (forall i :: 0 <= i < c && copies[i].key == k ==> Rank(copies[i].state) < Rank(copies[c].state))
  {
    if copies != [] {
      ChampionIs(copies[..|copies| - 1], k);
    }
  }

  /** What a key counts as. */
  function Outcome(copies: seq<Copy>, k: Key): State {
    if Champion(copies, k) >= 0 then copies[Champion(copies, k)].state else Undecided
  }

  /** How many of the keys count as s. */
  function Count(copies: seq<Copy>, keys: seq<Key>, s: State): nat {
    if keys == [] then 0
    else
      var n := |keys| - 1;
      Count(copies, keys[..n], s) + if Outcome(copies, keys[n]) == s then 1 else 0
  }

  lemma {:induction false} CountsAddUp(copies: seq<Copy>, keys: seq<Key>)
    ensures |keys| ==
      Count(copies, keys, Accepted) + Count(copies, keys, Rejected) + Count(copies, keys, Failed) +
        Count(copies, keys, Undecided)
  {
    if keys != [] {
      CountsAddUp(copies, keys[..|keys| - 1]);
    }
  }

  /** The variables the walk of aggregateCounters updates; `walked` is history. */
  class Counter {
    const marks: Marks
    var bestState: map<Key, State>
    var repr: map<Key, Entry>
    var order: seq<Key>
    ghost var walked: seq<Entry>

    ghost predicate Stands(copies: seq<Copy>)
      reads this
    {
      && order == Keys(copies) && (forall k :: k in order ==> k in bestState && k in repr)
      && (forall k :: k in bestState ==> k in order)
      && forall k :: k in order ==>
           && Champion(copies, k) >= 0
           && bestState[k] == copies[Champion(copies, k)].state && repr[k] == copies[Champion(copies, k)].entry
    }

    ghost predicate Valid()
      reads this, set e | e in walked
    {
      Stands(Copies(walked, marks))
    }

    constructor (marks: Marks)
      ensures this.marks == marks && walked == [] && Valid()
    {
      this.marks := marks;
      bestState, repr, order, walked := map[], map[], [], [];
    }

    method Consider(e: Entry)
      requires Valid()
      modifies this
      ensures Valid() && walked == old(walked) + [e]
    {
      hide Copies, Stands;
      CopiesStep(walked, e, marks);
      ghost var copies := Copies(walked, marks);
      walked := walked + [e];
      assert old(Stands(copies)) ==> Stands(copies) by { StandsSame(copies); }
      if e in marks.discarded || e in marks.superseded { return; }
      Record(Copy(e, KeyOf(e), if e in marks.dropped then Undecided else e.state), copies);
    }

    method ConsiderAll(es: seq<Entry>)
      requires Valid()
      modifies this
      ensures Valid() && walked == old(walked) + es
    {
      hide Valid;
      for i := 0 to |es|
        invariant Valid() && walked == old(walked) + es[..i]
      {
        Consider(es[i]);
      }
      assert es[..|es|] == es;
    }

    twostate lemma StandsSame(copies: seq<Copy>)
      requires old(Stands(copies)) && order == old(order) && bestState == old(bestState) && repr == old(repr)
      ensures Stands(copies)
    {
    }

    method Record(c: Copy, ghost copies: seq<Copy>)
      requires Stands(copies)
      modifies this`bestState, this`repr, this`order
      ensures Stands(copies + [c])
    {
      hide Keys, Champion, Rank;
      StepKeys(copies, c);
      if c.key !in bestState {
        bestState, repr, order := bestState[c.key := c.state], repr[c.key := c.entry], order + [c.key];
      } else if Rank(c.state) > Rank(bestState[c.key]) {
        bestState, repr := bestState[c.key := c.state], repr[c.key := c.entry];
      }
    }
  }

  lemma CopiesStep(walk: seq<Entry>, e: Entry, marks: Marks)
    ensures Copies(walk + [e], marks) ==
      if e in marks.discarded || e in marks.superseded then Copies(walk, marks)
      else Copies(walk, marks) + [Copy(e, KeyOf(e), if e in marks.dropped then Undecided else e.state)]
  {
    assert (walk + [e])[..|walk|] == walk;
  }

  lemma {:induction false} NoChampion(copies: seq<Copy>, k: Key)
    requires k !in Keys(copies)
    ensures Champion(copies, k) == -1
  {
    if copies != [] {
      NoChampion(copies[..|copies| - 1], k);
    }
  }

  lemma StepKeys(copies: seq<Copy>, c: Copy)
    ensures c.key !in Keys(copies) ==> Champion(copies, c.key) == -1
    ensures Keys(copies + [c]) == if c.key in Keys(copies) then Keys(copies) else Keys(copies) + [c.key]
    ensures forall k :: k != c.key ==> Champion(copies + [c], k) == Champion(copies, k)
    ensures Champion(copies + [c], c.key) ==
      if Champion(copies, c.key) == -1 || Rank(c.state) > Rank(copies[Champion(copies, c.key)].state) then |copies|
      else Champion(copies, c.key)
  {
    if c.key !in Keys(copies) { NoChampion(copies, c.key); }
    assert (copies + [c])[..|copies|] == copies;
  }

  // --- The whole count ---

  datatype Tally = Tally(total: nat, accepted: nat, rejected: nat, failed: nat, undecided: nat, entries: seq<Entry>)

  /** A tally of these copies: one entry for each key, in the order the keys are first met. */
  ghost predicate IsTally(t: Tally, copies: seq<Copy>) {
    KeysAre(copies);
    var keys := Keys(copies);
    && t.total == |keys| == |t.entries|
    && t.accepted == Count(copies, keys, Accepted) && t.rejected == Count(copies, keys, Rejected)
    && t.failed == Count(copies, keys, Failed) && t.undecided == Count(copies, keys, Undecided)
    && forall i :: 0 <= i < |keys| ==> t.entries[i] == copies[Champion(copies, keys[i])].entry
  }

  ghost function Along(edges: map<Edge, seq<Entry>>, keys: seq<Edge>): seq<Entry> {
    if keys == [] then []
    else
      var n := |keys| - 1;
      Along(edges, keys[..n]) + if keys[n] in edges then edges[keys[n]] else []
  }

  method EdgeKeys(edges: map<Edge, seq<Entry>>) returns (keys: seq<Edge>)
    ensures SortedEdges(keys) && Distinct(keys) && forall k :: k in keys <==> k in edges
  {
    hide EdgeLess;
    var ks: seq<Edge> := [];
    var left := edges.Keys;
    while left != {}
      invariant left <= edges.Keys && Distinct(ks)
      invariant forall k :: k in ks <==> k in edges && k !in left
    {
      var k :| k in left;
      left, ks := left - {k}, ks + [k];
    }
    var sorting := new Edge[|ks|](i requires 0 <= i < |ks| => ks[i]);
    assert sorting[..] == ks;
    SortEdgeKeys(sorting);
    keys := sorting[..];
    Permuted(ks, keys);
  }

  lemma {:induction false} Once(s: seq<Edge>, x: Edge)
    ensures Distinct(s) ==> multiset(s)[x] <= 1
    ensures multiset(s)[x] <= 1 ==> forall i, j :: 0 <= i < j < |s| && s[i] == x ==> s[j] != x
  {
    if s != [] {
      var n := |s| - 1;
      Once(s[..n], x);
      assert s == s[..n] + [s[n]];
      assert x in multiset(s[..n]) <==> x in s[..n];
    }
  }

  lemma Permuted(a: seq<Edge>, b: seq<Edge>)
    requires Distinct(a) && multiset(a) == multiset(b)
    ensures Distinct(b) && forall x :: x in b <==> x in a
  {
    forall i, j | 0 <= i < j < |b| ensures b[i] != b[j] {
      Once(a, b[i]);
      Once(b, b[i]);
    }
    forall x ensures x in b <==> x in a {
      assert x in multiset(a) <==> x in a;
      assert x in multiset(b) <==> x in b;
    }
  }

  /** The edges' keys, in order and once each. */
  ghost predicate Listing(edges: map<Edge, seq<Entry>>, keys: seq<Edge>) {
    SortedEdges(keys) && Distinct(keys) && forall k :: k in keys <==> k in edges
  }

  /** The tally of the source entries and then of every edge's, in the order of its ends. */
  ghost predicate Tallies(t: Tally, sourceEntries: seq<Entry>, edges: map<Edge, seq<Entry>>, marks: Marks)
    reads *
  {
    exists keys :: Listing(edges, keys) && IsTally(t, Copies(sourceEntries + Along(edges, keys), marks))
  }

  /** aggregateCounters: source entries first, then every edge in the order of its ends. */
  method AggregateCounters(sourceEntries: seq<Entry>, edges: map<Edge, seq<Entry>>, marks: Marks)
    returns (t: Tally)
    ensures Tallies(t, sourceEntries, edges, marks)
  {
    hide Copies, SortedEdges, Distinct, EdgeLess, Counter.Valid;
    var counter := new Counter(marks);
    counter.ConsiderAll(sourceEntries);
    var ordered := EdgeKeys(edges);
    for j := 0 to |ordered|
      invariant fresh(counter) && counter.Valid() && counter.walked == sourceEntries + Along(edges, ordered[..j])
    {
      counter.ConsiderAll(edges[ordered[j]]);
      assert ordered[..j + 1][..j] == ordered[..j];
    }
    assert ordered[..|ordered|] == ordered;
    t := Sum(counter);
    assert Listing(edges, ordered);
  }

  method Sum(counter: Counter) returns (t: Tally)
    requires counter.Valid()
    ensures IsTally(t, Copies(counter.walked, counter.marks))
  {
    hide Copies, Keys, Champion, Count, Outcome, Counter.Stands;
    ghost var copies := Copies(counter.walked, counter.marks);
    var order := counter.order;
    assert order == Keys(copies) by { StandsOrder(counter, copies); }
    var accepted, rejected, failed, undecided := 0, 0, 0, 0;
    var entries := [];
    CountNone(copies);
    for i := 0 to |order|
      invariant |entries| == i && forall j :: 0 <= j < i ==>
        Champion(copies, order[j]) >= 0 && entries[j] == copies[Champion(copies, order[j])].entry
      invariant accepted == Count(copies, order[..i], Accepted) && rejected == Count(copies, order[..i], Rejected)
      invariant failed == Count(copies, order[..i], Failed) && undecided == Count(copies, order[..i], Undecided)
    {
      CountStep(copies, order, i);
      StandsFor(counter, copies, order[i]);
      entries := entries + [counter.repr[order[i]]];
      match counter.bestState[order[i]] {
        case Accepted => accepted := accepted + 1;
        case Rejected => rejected := rejected + 1;
        case Failed => failed := failed + 1;
        case Undecided => undecided := undecided + 1;
      }
    }
    assert order[..|order|] == order;
    t := Tally(|order|, accepted, rejected, failed, undecided, entries);
  }

  lemma StandsOrder(counter: Counter, copies: seq<Copy>)
    requires counter.Stands(copies)
    ensures counter.order == Keys(copies)
  {
  }

  lemma StandsFor(counter: Counter, copies: seq<Copy>, k: Key)
    requires counter.Stands(copies) && k in counter.order
    ensures k in counter.bestState && counter.bestState[k] == Outcome(copies, k)
    ensures k in counter.repr && Champion(copies, k) >= 0 && counter.repr[k] == copies[Champion(copies, k)].entry
  {
    hide Champion;
  }

  lemma CountNone(copies: seq<Copy>)
    ensures forall s :: Count(copies, [], s) == 0
  {
  }

  lemma CountStep(copies: seq<Copy>, keys: seq<Key>, i: nat)
    requires i < |keys|
    ensures forall s ::
      Count(copies, keys[..i + 1], s) == Count(copies, keys[..i], s) + if Outcome(copies, keys[i]) == s then 1 else 0
  {
    hide Champion, Outcome;
    assert keys[..i + 1][..i] == keys[..i];
  }

  /** Of the copies with this entry's key, it is the first that no other outranks. */
  ghost predicate Represents(e: Entry, copies: seq<Copy>) {
    exists c :: 0 <= c < |copies| && copies[c].entry == e && copies[c].key == KeyOf(e) && FirstStrongest(copies, c)
  }

  ghost predicate FirstStrongest(copies: seq<Copy>, c: nat)
    requires c < |copies|
  {
    && (forall i :: 0 <= i < |copies| && copies[i].key == copies[c].key ==>
      Rank(copies[i].state) <= Rank(copies[c].state))
    && (forall i :: 0 <= i < c && copies[i].key == copies[c].key ==> Rank(copies[i].state) < Rank(copies[c].state))
  }

  ghost predicate Listed(t: Tally, k: Key) {
    exists j :: 0 <= j < |t.entries| && KeyOf(t.entries[j]) == k
  }

  /** The counts add up, and the listed entries stand one each for the keys of the counted copies. */
  lemma TallyIs(t: Tally, copies: seq<Copy>)
    requires IsTally(t, copies) && forall i :: 0 <= i < |copies| ==> copies[i].key == KeyOf(copies[i].entry)
    ensures t.total == t.accepted + t.rejected + t.failed + t.undecided == |t.entries|
    ensures forall i :: 0 <= i < |t.entries| ==> Represents(t.entries[i], copies)
    ensures forall i, j :: 0 <= i < j < |t.entries| ==> KeyOf(t.entries[i]) != KeyOf(t.entries[j])
    ensures forall i :: 0 <= i < |copies| ==> Listed(t, copies[i].key)
  {
    hide Champion, Keys, Count, KeyOf;
    var keys := Keys(copies);
    KeysAre(copies);
    CountsAddUp(copies, keys);
    forall i | 0 <= i < |keys| ensures KeyOf(t.entries[i]) == keys[i] && Represents(t.entries[i], copies) {
      ChampionIs(copies, keys[i]);
      assert FirstStrongest(copies, Champion(copies, keys[i]));
    }
    forall i | 0 <= i < |copies| ensures Listed(t, copies[i].key) {
      var j :| 0 <= j < |keys| && keys[j] == copies[i].key;
      assert KeyOf(t.entries[j]) == keys[j];
    }
  }

  /** Some copy of this key is in that state. */
  ghost predicate Seen(copies: seq<Copy>, k: Key, s: State) {
    exists i :: 0 <= i < |copies| && copies[i].key == k && copies[i].state == s
  }

  /** An accepted copy decides, then a rejected one, then a failed one. */
  ghost predicate CountsAs(copies: seq<Copy>, k: Key, s: State) {
    match s
    case Accepted => Seen(copies, k, Accepted)
    case Rejected => Seen(copies, k, Rejected) && !Seen(copies, k, Accepted)
    case Failed => Seen(copies, k, Failed) && !Seen(copies, k, Accepted) && !Seen(copies, k, Rejected)
    case Undecided =>
      && Seen(copies, k, Undecided)
      && !Seen(copies, k, Accepted) && !Seen(copies, k, Rejected) && !Seen(copies, k, Failed)
  }

  /** The keys that count as s. */
  ghost function KeysCounting(copies: seq<Copy>, s: State): set<Key> {
    set i | 0 <= i < |copies| && CountsAs(copies, copies[i].key, s) :: copies[i].key
  }

  lemma OutcomeCounts(copies: seq<Copy>, k: Key, s: State)
    requires k in Keys(copies)
    ensures Outcome(copies, k) == s <==> CountsAs(copies, k, s)
  {
    hide Champion, Keys;
    KeysAre(copies);
    ChampionIs(copies, k);
    var c := Champion(copies, k);
    assert Seen(copies, k, copies[c].state);
    forall t | Seen(copies, k, t) ensures Rank(t) <= Rank(copies[c].state) {
      var i :| 0 <= i < |copies| && copies[i].key == k && copies[i].state == t;
    }
  }

  lemma {:induction false} KeysMet(copies: seq<Copy>, k: Key)
    ensures k in Keys(copies) <==> exists i :: 0 <= i < |copies| && copies[i].key == k
  {
    if copies != [] {
      var n := |copies| - 1;
      KeysMet(copies[..n], k);
      assert forall i :: 0 <= i < n ==> copies[i] == copies[..n][i];
    }
  }

  ghost function CountedAs(copies: seq<Copy>, keys: seq<Key>, s: State): set<Key> {
    set k | k in keys && Outcome(copies, k) == s
  }

  lemma CountedSnoc(copies: seq<Copy>, keys: seq<Key>, k: Key, s: State)
    ensures CountedAs(copies, keys + [k], s) ==
      CountedAs(copies, keys, s) + if Outcome(copies, k) == s then {k} else {}
  {
    hide Outcome;
  }

  lemma {:induction false} CountIs(copies: seq<Copy>, keys: seq<Key>, s: State)
    requires forall i, j :: 0 <= i < j < |keys| ==> keys[i] != keys[j]
    ensures Count(copies, keys, s) == |CountedAs(copies, keys, s)|
  {
    hide Outcome;
    if keys != [] {
      hide CountedAs;
      var n := |keys| - 1;
      CountIs(copies, keys[..n], s);
      assert keys == keys[..n] + [keys[n]];
      CountedSnoc(copies, keys[..n], keys[n], s);
      assert keys[n] !in CountedAs(copies, keys[..n], s) by { CountedIn(copies, keys[..n], s); }
    }
  }

  lemma CountedIn(copies: seq<Copy>, keys: seq<Key>, s: State)
    ensures forall k :: k in CountedAs(copies, keys, s) <==> k in keys && Outcome(copies, k) == s
  {
    hide Outcome;
  }

  /** How many keys the tally counts as each state. */
  lemma TallyCounts(t: Tally, copies: seq<Copy>)
    requires IsTally(t, copies)
    ensures t.accepted == |KeysCounting(copies, Accepted)| && t.rejected == |KeysCounting(copies, Rejected)|
    ensures t.failed == |KeysCounting(copies, Failed)| && t.undecided == |KeysCounting(copies, Undecided)|
  {
    hide IsTally, Count, Outcome, Keys, CountsAs;
    assert t.accepted == Count(copies, Keys(copies), Accepted) && t.rejected == Count(copies, Keys(copies), Rejected) &&
      t.failed == Count(copies, Keys(copies), Failed) && t.undecided == Count(copies, Keys(copies), Undecided) by {
      TallySums(t, copies);
    }
    forall s ensures Count(copies, Keys(copies), s) == |KeysCounting(copies, s)| {
      KeysCounted(copies, s);
    }
  }

  lemma TallySums(t: Tally, copies: seq<Copy>)
    requires IsTally(t, copies)
    ensures t.accepted == Count(copies, Keys(copies), Accepted) && t.rejected == Count(copies, Keys(copies), Rejected)
    ensures t.failed == Count(copies, Keys(copies), Failed) && t.undecided == Count(copies, Keys(copies), Undecided)
  {
  }

  lemma KeysCounted(copies: seq<Copy>, s: State)
    ensures Count(copies, Keys(copies), s) == |KeysCounting(copies, s)|
  {
    hide Count, Outcome, Keys, CountsAs;
    var keys := Keys(copies);
    KeysAre(copies);
    CountIs(copies, keys, s);
    var mine := CountedAs(copies, keys, s);
    forall k ensures k in mine <==> k in KeysCounting(copies, s) {
      KeysMet(copies, k);
      if k in keys { OutcomeCounts(copies, k, s); }
    }
    assert mine == KeysCounting(copies, s);
  }

  ghost predicate Copied(copies: seq<Copy>, e: Entry) {
    exists i :: 0 <= i < |copies| && copies[i].entry == e
  }

  /** A copy stands for an entry that was walked and is not excluded, and one that stopped short counts as undecided. */
  lemma {:induction false} CopiesAre(walk: seq<Entry>, marks: Marks)
    ensures forall i :: 0 <= i < |Copies(walk, marks)| ==>
      var c := Copies(walk, marks)[i];
      && c.entry in walk && c.entry !in marks.discarded && c.entry !in marks.superseded
      && c.key == KeyOf(c.entry) && c.state == if c.entry in marks.dropped then Undecided else c.entry.state
    ensures forall e :: e in walk && e !in marks.discarded && e !in marks.superseded ==> Copied(Copies(walk, marks), e)
  {
    if walk != [] {
      var n := |walk| - 1;
      CopiesAre(walk[..n], marks);
      assert walk == walk[..n] + [walk[n]];
      var rest, all := Copies(walk[..n], marks), Copies(walk, marks);
      assert forall i :: 0 <= i < |rest| ==> all[i] == rest[i];
      forall e | e in walk && e !in marks.discarded && e !in marks.superseded ensures Copied(all, e) {
        if e in walk[..n] {
          var i :| 0 <= i < |rest| && rest[i].entry == e;
          assert all[i].entry == e;
        } else {
          assert all[|all| - 1].entry == e;
        }
      }
    }
  }
}
