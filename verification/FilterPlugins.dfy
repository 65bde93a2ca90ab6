/**
  The processors the validator knows by name
  (plugins/processor/filter/require/require.go,
  plugins/processor/filter/condition/condition.go,
  plugins/processor/modify/swap_state/swap_state.go), on shared entries, and
  that they do what Soundness asks of them.
 */
module FilterPlugins {
  import opened Graph
  import opened Entries
  import opened Dataflow
  import opened StateCert
  import opened CertMeaning
  import opened FieldFlow
  import opened Conditions
  import opened Soundness

  /** entry.PassThrough: what is neither rejected nor failed. */
  function Passing(items: seq<Item>): seq<Item> { Keep(items, InStates({Rejected, Failed}), false) }

  method PassThrough(entries: seq<Entry>) returns (out: seq<Entry>)
    ensures Views(out) == Passing(Views(entries)) && forall e :: e in out ==> e in entries
  {
    hide Views, Keep;
    var refused;
    refused, out := Split(entries, InStates({Rejected, Failed}));
  }

  /** Where require leaves an entry. */
  function Filtered(fields: seq<Field>, i: Item): Item { if Lacks(i, fields) then i.(state := Rejected) else i }

  function FilteredAll(fields: seq<Field>, items: seq<Item>): seq<Item> {
    seq(|items|, k requires 0 <= k < |items| => Filtered(fields, items[k]))
  }

  method RequireProcess(fields: seq<Field>, entries: seq<Entry>) returns (out: seq<Entry>)
    modifies set e | e in entries
    ensures Views(entries) == FilteredAll(fields, old(Views(entries)))
    ensures Views(out) == Passing(FilteredAll(fields, old(Views(entries)))) && forall e :: e in out ==> e in entries
  {
    hide Views, Keep, Lacks;
    for k := 0 to |entries|
      invariant forall e :: e in entries ==>
        e.View() == if e in entries[..k] then Filtered(fields, old(e.View())) else old(e.View())
    {
      assert entries[..k + 1] == entries[..k] + [entries[k]];
      LacksIgnoresState(fields, old(entries[k].View()));
      RejectIfLacking(fields, entries[k]);
    }
    assert entries[..|entries|] == entries;
    SameItems(entries, FilteredAll(fields, old(Views(entries))));
    out := PassThrough(entries);
  }

  lemma LacksIgnoresState(fields: seq<Field>, i: Item)
    ensures Lacks(i.(state := Rejected), fields) == Lacks(i, fields)
  {
    assert forall f :: i.(state := Rejected).Get(f) == i.Get(f);
  }

  lemma SameItems(es: seq<Entry>, items: seq<Item>)
    requires |es| == |items| && forall k :: 0 <= k < |es| ==> es[k].View() == items[k]
    ensures Views(es) == items
  {
  }

  method RejectIfLacking(fields: seq<Field>, e: Entry)
    modifies e
    ensures e.View() == Filtered(fields, old(e.View()))
  {
    for j := 0 to |fields|
      invariant e.View() == old(e.View()) && forall m :: 0 <= m < j ==> !IsMissing(e.View().Get(fields[m]).0)
    {
      if IsMissing(e.View().Get(fields[j]).0) {
        e.Reject();
        return;
      }
    }
  }

  function FlippedAll(a: State, b: State, items: seq<Item>): seq<Item> {
    seq(|items|, k requires 0 <= k < |items| => Flipped(a, b, items[k]))
  }

  function Flipped(a: State, b: State, i: Item): Item { i.(state := Flip(a, b, i.state)) }

  function FlippedTimes(a: State, b: State, i: Item, n: nat): Item {
    if n == 0 then i else Flipped(a, b, FlippedTimes(a, b, i, n - 1))
  }

  lemma {:induction false} FlippedOdd(a: State, b: State, i: Item, n: nat)
    ensures FlippedTimes(a, b, i, n) == if n % 2 == 1 then Flipped(a, b, i) else i
  {
    if n > 0 { FlippedOdd(a, b, i, n - 1); }
  }

  /** An entry handed in twice is flipped twice, and so not at all. */
  method SwapProcess(a: State, b: State, entries: seq<Entry>) returns (out: seq<Entry>)
    modifies set e | e in entries
    ensures out == entries
    ensures forall e :: e in entries ==>
      e.View() == if multiset(entries)[e] % 2 == 1 then Flipped(a, b, old(e.View())) else old(e.View())
    ensures Distinct(entries) ==> Views(out) == FlippedAll(a, b, old(Views(entries)))
  {
    hide Views, Flipped;
    FlipEach(a, b, entries);
    forall e | e in entries
      ensures e.View() == if multiset(entries)[e] % 2 == 1 then Flipped(a, b, old(e.View())) else old(e.View())
    {
      FlippedOdd(a, b, old(e.View()), multiset(entries)[e]);
    }
    if Distinct(entries) {
      Singly(entries);
      SameItems(entries, FlippedAll(a, b, old(Views(entries))));
    }
    out := entries;
  }

  lemma FlippedStart(a: State, b: State)
    ensures forall i :: FlippedTimes(a, b, i, 0) == i
  {
  }

  lemma FlippedNext(a: State, b: State, i: Item, n: nat)
    ensures FlippedTimes(a, b, i, n + 1) == Flipped(a, b, FlippedTimes(a, b, i, n))
  {
  }

  lemma CountNext(es: seq<Entry>, k: nat)
    requires k < |es|
    ensures forall e :: multiset(es[..k + 1])[e] == multiset(es[..k])[e] + if e == es[k] then 1 else 0
  {
    assert es[..k + 1] == es[..k] + [es[k]];
  }

  method FlipEach(a: State, b: State, entries: seq<Entry>)
    modifies set e | e in entries
    ensures forall e :: e in entries ==> e.View() == FlippedTimes(a, b, old(e.View()), multiset(entries)[e])
  {
    hide Flipped, FlippedTimes, Entry.View;
    FlippedStart(a, b);
    for k := 0 to |entries|
      invariant forall e :: e in entries ==> e.View() == FlippedTimes(a, b, old(e.View()), multiset(entries[..k])[e])
    {
      CountNext(entries, k);
      FlipState(a, b, entries[k]);
      FlippedNext(a, b, old(entries[k].View()), multiset(entries[..k])[entries[k]]);
    }
    assert entries[..|entries|] == entries;
  }

  method FlipState(a: State, b: State, e: Entry)
    modifies e
    ensures e.View() == Flipped(a, b, old(e.View()))
  {
    if e.state == a {
      e.state := b;
    } else if e.state == b {
      e.state := a;
    }
  }

  lemma {:induction false} Singly(es: seq<Entry>)
    requires Distinct(es)
    ensures forall e :: e in es ==> multiset(es)[e] == 1
  {
    if es != [] {
      var n := |es| - 1;
      Singly(es[..n]);
      assert es == es[..n] + [es[n]];
      assert es[n] !in es[..n] && multiset(es[..n])[es[n]] == 0;
    }
  }

  /** So a pair of the same entry comes back as it went in, in a state that was to be swapped. */
  method SwapTwice(e: Entry) returns (out: seq<Entry>)
    requires e.state == Rejected
    modifies e
    ensures out == [e, e] && e.state == Rejected != Flip(Rejected, Undecided, Rejected)
  {
    assert multiset([e, e])[e] == 2;
    out := SwapProcess(Rejected, Undecided, [e, e]);
  }

  /** What an expression says of an entry; one that cannot be evaluated ends the filter. */
  datatype Answer = Yes | No | Broken

  /** A rule of a condition node; without one of its expressions, that one says no. */
  datatype Clause = Clause(reject: Item -> Answer, accept: Item -> Answer)

  /** Where the rules leave an entry: the first that matches decides, and its `reject` comes first. */
  function Judged(clauses: seq<Clause>, i: Item): Item {
    if clauses == [] then i
    else match clauses[0].reject(i)
      case Broken => i
      case Yes => if i.state == Failed then i else i.(state := Rejected)
      case No =>
        match clauses[0].accept(i)
        case Broken => i
        case Yes => if i.state == Failed then i else i.(state := Accepting(i.state))
        case No => Judged(clauses[1..], i)
  }

  predicate SaysNothing(c: Clause, i: Item) { c.reject(i) == No && c.accept(i) == No }

  /** Clause k is the first that has something to say of the entry. */
  predicate Speaks(clauses: seq<Clause>, i: Item, k: nat) {
    k < |clauses| && !SaysNothing(clauses[k], i) && forall j :: 0 <= j < k ==> SaysNothing(clauses[j], i)
  }

  /** The first rule that says anything decides; a failed entry stays as it is, and so does one it cannot judge. */
  lemma {:induction false} JudgedByFirst(clauses: seq<Clause>, i: Item, k: nat)
    requires k == |clauses| || Speaks(clauses, i, k)
    requires forall j :: 0 <= j < k ==> SaysNothing(clauses[j], i)
    ensures Judged(clauses, i) ==
      if k == |clauses| || i.state == Failed then i
      else if clauses[k].reject(i) == Yes then i.(state := Rejected)
      else if clauses[k].reject(i) == No && clauses[k].accept(i) == Yes && i.state != Rejected then
        i.(state := Accepted)
      else i
  {
    if k > 0 {
      assert SaysNothing(clauses[0], i);
      assert forall j :: 0 <= j < k - 1 ==> SaysNothing(clauses[1..][j], i) by {
        assert forall j :: 0 <= j < k - 1 ==> clauses[1..][j] == clauses[j + 1];
      }
      JudgedByFirst(clauses[1..], i, k - 1);
    }
  }

  function JudgedAll(clauses: seq<Clause>, items: seq<Item>): seq<Item> {
    seq(|items|, k requires 0 <= k < |items| => Judged(clauses, items[k]))
  }

  /** Where they leave an entry that is handed in this often. */
  function JudgedTimes(clauses: seq<Clause>, i: Item, n: nat): Item {
    if n == 0 then i else Judged(clauses, JudgedTimes(clauses, i, n - 1))
  }

  /** No expression reads the state of the entry. */
  ghost predicate StateBlind(clauses: seq<Clause>) {
    forall c, i: Item, s :: c in clauses ==>
      c.reject(i.(state := s)) == c.reject(i) && c.accept(i.(state := s)) == c.accept(i)
  }

  /** Such rules decide once and for all. */
  lemma {:induction false} JudgedAgain(clauses: seq<Clause>, i: Item)
    requires StateBlind(clauses)
    ensures Judged(clauses, Judged(clauses, i)) == Judged(clauses, i)
  {
    if clauses != [] {
      assert clauses[0] in clauses;
      JudgedKeeps(clauses, i);
      if clauses[0].reject(i).No? && clauses[0].accept(i).No? {
        JudgedAgain(clauses[1..], i);
        JudgedKeeps(clauses[1..], i);
      }
    }
  }

  lemma {:induction false} JudgedOnce(clauses: seq<Clause>, i: Item, n: nat)
    requires n == 1 || (n > 0 && StateBlind(clauses))
    ensures JudgedTimes(clauses, i, n) == Judged(clauses, i)
  {
    hide Judged;
    if n > 1 {
      JudgedOnce(clauses, i, n - 1);
      JudgedAgain(clauses, i);
    } else {
      assert JudgedTimes(clauses, i, 0) == i;
    }
  }

  /** An entry handed in twice is judged twice, which may come out differently only for rules that read the state. */
  method ConditionProcess(clauses: seq<Clause>, entries: seq<Entry>) returns (out: seq<Entry>)
    modifies set e | e in entries
    ensures forall e :: e in entries ==> e.View() == JudgedTimes(clauses, old(e.View()), multiset(entries)[e])
    ensures Distinct(entries) || StateBlind(clauses) ==> Views(entries) == JudgedAll(clauses, old(Views(entries)))
    ensures Views(out) == Passing(Views(entries)) && forall e :: e in out ==> e in entries
  {
    hide Views, Keep, Judged, JudgedTimes, StateBlind;
    JudgeEach(clauses, entries);
    if Distinct(entries) || StateBlind(clauses) {
      if Distinct(entries) { Singly(entries); }
      forall e | e in entries ensures e.View() == Judged(clauses, old(e.View())) {
        assert multiset(entries)[e] > 0;
        JudgedOnce(clauses, old(e.View()), multiset(entries)[e]);
      }
      SameItems(entries, JudgedAll(clauses, old(Views(entries))));
    }
    out := PassThrough(entries);
  }

  method JudgeEach(clauses: seq<Clause>, entries: seq<Entry>)
    modifies set e | e in entries
    ensures forall e :: e in entries ==> e.View() == JudgedTimes(clauses, old(e.View()), multiset(entries)[e])
  {
    hide Judged, JudgedTimes, Entry.View;
    JudgedStart(clauses);
    for k := 0 to |entries|
      invariant forall e :: e in entries ==> e.View() == JudgedTimes(clauses, old(e.View()), multiset(entries[..k])[e])
    {
      CountNext(entries, k);
      Judge(clauses, entries[k]);
      JudgedNext(clauses, old(entries[k].View()), multiset(entries[..k])[entries[k]]);
    }
    assert entries[..|entries|] == entries;
  }

  lemma JudgedStart(clauses: seq<Clause>)
    ensures forall i :: JudgedTimes(clauses, i, 0) == i
  {
  }

  lemma JudgedNext(clauses: seq<Clause>, i: Item, n: nat)
    ensures JudgedTimes(clauses, i, n + 1) == Judged(clauses, JudgedTimes(clauses, i, n))
  {
  }

  method Judge(clauses: seq<Clause>, e: Entry)
    modifies e
    ensures e.View() == Judged(clauses, old(e.View()))
  {
    var data := e.View();
    for k := 0 to |clauses|
      invariant e.View() == data && Judged(clauses, data) == Judged(clauses[k..], data)
    {
      var rejects := clauses[k].reject(data);
      if rejects.Broken? { return; }
      if rejects.Yes? {
        if e.state != Failed { e.Reject(); }
        return;
      }
      var accepts := clauses[k].accept(data);
      if accepts.Broken? { return; }
      if accepts.Yes? {
        if e.state != Failed { e.Accept(); }
        return;
      }
      assert clauses[k..][1..] == clauses[k + 1..];
    }
  }

  // --- They are what the theorem takes them for ---

  /** These expressions are evaluated for any entry, and allow what the analysis infers from them. */
  ghost predicate Infers(c: Clause, r: Rule) {
    forall i ::
      && !c.reject(i).Broken? && !c.accept(i).Broken?
      && (r.AcceptRule? ==> c.reject(i).No?) && (r.RejectRule? ==> c.accept(i).No?)
      && (c.accept(i).Yes? ==> HasAll(i, Narrows(r)))
      && (c.reject(i).No? ==> HasAll(i, Promotes(r)))
  }

  lemma {:induction false} JudgedDecides(clauses: seq<Clause>, rules: seq<Rule>, i: Item)
    requires |clauses| == |rules| && forall k :: 0 <= k < |rules| ==> Infers(clauses[k], rules[k])
    requires i.state in PASSING && Judged(clauses, i).state != Rejected
    ensures Decides(rules, i, Judged(clauses, i))
  {
    if rules != [] {
      assert Infers(clauses[0], rules[0]);
      if clauses[0].reject(i).No? && clauses[0].accept(i).No? {
        JudgedDecides(clauses[1..], rules[1..], i);
      }
    }
  }

  lemma {:induction false} JudgedKeeps(clauses: seq<Clause>, i: Item)
    ensures Judged(clauses, i) == i.(state := Judged(clauses, i).state)
    ensures i.state in {Rejected, Failed} ==> Judged(clauses, i) == i
  {
    if clauses != [] { JudgedKeeps(clauses[1..], i); }
  }

  lemma PassingOrRefused(s: State)
    ensures s in PASSING <==> s !in {Rejected, Failed}
  {
    match s case _ =>
  }

  lemma ConditionBehaves(d: Descriptor, classifier: bool, clauses: seq<Clause>, r: Record)
    requires Registered(d) && d.kind.Condition?
    requires |clauses| == |d.kind.rules| && forall k :: 0 <= k < |clauses| ==> Infers(clauses[k], d.kind.rules[k])
    requires r.out == Passing(JudgedAll(clauses, r.handed))
    ensures Behaves(d, classifier, r)
  {
    hide Keep, Infers, Judged, Decides;
    var judged := JudgedAll(clauses, r.handed);
    KeepIs(judged, InStates({Rejected, Failed}), false);
    forall o | o in r.out && !o.marker
      ensures exists h :: h in r.handed && !h.marker && Moves(d, classifier, h, o)
    {
      var k :| 0 <= k < |judged| && judged[k] == o;
      var h := r.handed[k];
      JudgedKeeps(clauses, h);
      assert !Entries.Holds(InStates({Rejected, Failed}), o);
      PassingOrRefused(h.state);
      JudgedDecides(clauses, d.kind.rules, h);
      assert h in r.handed && !h.marker && Moves(d, classifier, h, o);
    }
  }

  lemma RequireBehaves(d: Descriptor, classifier: bool, r: Record)
    requires Registered(d) && d.kind.Require?
    requires r.out == Passing(FilteredAll(d.kind.fields, r.handed))
    ensures Behaves(d, classifier, r)
  {
    hide Keep, Lacks;
    var handed := r.handed;
    var filtered := FilteredAll(d.kind.fields, handed);
    KeepIs(filtered, InStates({Rejected, Failed}), false);
    forall o | o in r.out && !o.marker
      ensures exists h :: h in handed && !h.marker && Moves(d, classifier, h, o)
    {
      var k :| 0 <= k < |filtered| && filtered[k] == o;
      assert o == handed[k] && !Lacks(o, d.kind.fields);
      assert handed[k] in handed && Moves(d, classifier, handed[k], o);
    }
  }

  lemma SwapBehaves(d: Descriptor, classifier: bool, r: Record)
    requires Registered(d) && d.kind.SwapState?
    requires r.out == FlippedAll(ParseStateName(d.kind.names[0]).state, ParseStateName(d.kind.names[1]).state, r.handed)
    ensures Behaves(d, classifier, r)
  {
    hide ParseStateName;
    var handed := r.handed;
    forall o | o in r.out && !o.marker
      ensures exists h :: h in handed && !h.marker && Moves(d, classifier, h, o)
    {
      var k :| 0 <= k < |r.out| && r.out[k] == o;
      assert handed[k] in handed && Moves(d, classifier, handed[k], o);
    }
  }
}
