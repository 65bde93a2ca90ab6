/** Pipeline entries (internal/entry/entry.go). */
module Entries {

  datatype State = Undecided | Accepted | Rejected | Failed

  type Field = string

  /** A value of an entry's metadata bag, by the types the require filter tells apart. */
  datatype Value =
    | Nil
    | Text(text: string)
    | Number(n: real)      // int, int64 and float64
    | Flag(flag: bool)
    | Moment(t: int)       // time.Time; zero is the zero time
    | Texts(texts: seq<string>)
    | Other

  /** What can be read off an entry at one moment. */
  datatype Item = Item(
    title: string,
    url: string,
    originalURL: string,
    task: string,
    state: State,
    consumed: bool,
    marker: bool,
    fields: map<Field, Value>
  ) {
    /** Entry.Get: the metadata bag first, then the four struct fields by name. */
    function Get(key: Field): (r: (Value, bool)) {
      if key in fields then (fields[key], true)
      else if key == "title" then (Text(title), true)
      else if key == "url" then (Text(url), true)
      else if key == "original_url" then (Text(originalURL), true)
      else if key == "task" then (Text(task), true)
      else (Nil, false)
    }

    predicate Has(key: Field) { Get(key).1 }
  }

  /** Reject always wins; Accept and Fail do not move a rejected entry. */
  function Accepting(s: State): State { if s == Rejected then s else Accepted }

  function Failing(s: State): State { if s == Rejected then s else Failed }

  datatype Verdict = ToAccept | ToReject | ToFail

  /** The state after these calls of Accept, Reject and Fail. */
  function AfterAll(s: State, calls: seq<Verdict>): State {
    if calls == [] then s else After(AfterAll(s, calls[..|calls| - 1]), calls[|calls| - 1])
  }

  function After(s: State, call: Verdict): State {
    match call
    case ToAccept => Accepting(s)
    case ToReject => Rejected
    case ToFail => Failing(s)
  }

  /** One rejection decides for good; otherwise the last call does. */
  lemma {:induction false} RejectWins(s: State, calls: seq<Verdict>)
    ensures AfterAll(s, calls) ==
      if s == Rejected || ToReject in calls then Rejected
      else if calls == [] then s
      else if calls[|calls| - 1] == ToAccept then Accepted
      else Failed
  {
    if calls != [] {
      var front, last := calls[..|calls| - 1], calls[|calls| - 1];
      RejectWins(s, front);
      InSnoc(calls);
      hide AfterAll;
      var before := AfterAll(s, front);
      assert AfterAll(s, calls) == After(before, last) by { AfterLast(s, calls); }
    }
  }

  lemma InSnoc(calls: seq<Verdict>)
    requires calls != []
    ensures ToReject in calls <==> ToReject in calls[..|calls| - 1] || calls[|calls| - 1] == ToReject
  {
    assert calls == calls[..|calls| - 1] + [calls[|calls| - 1]];
  }

  lemma AfterLast(s: State, calls: seq<Verdict>)
    requires calls != []
    ensures AfterAll(s, calls) == After(AfterAll(s, calls[..|calls| - 1]), calls[|calls| - 1])
  {
  }

  class Entry {
    var title: string
    const url: string
    const originalURL: string
    var task: string
    var state: State
    var consumed: bool
    var marker: bool
    var fields: map<Field, Value>

    constructor (title: string, url: string)
      ensures View() == Item(title, url, url, "", Undecided, false, false, map[])
    {
      this.title, this.url, originalURL, task := title, url, url, "";
      state, consumed, marker, fields := Undecided, false, false, map[];
    }

    constructor Of(i: Item)
      ensures View() == i
    {
      title, url, originalURL, task := i.title, i.url, i.originalURL, i.task;
      state, consumed, marker, fields := i.state, i.consumed, i.marker, i.fields;
    }

    function View(): Item
      reads this
    {
      Item(title, url, originalURL, task, state, consumed, marker, fields)
    }

    method Accept()
      modifies this
      ensures View() == old(View()).(state := Accepting(old(state)))
    {
      if state != Rejected { state := Accepted; }
    }

    method Reject()
      modifies this
      ensures View() == old(View()).(state := Rejected)
    {
      state := Rejected;
    }

    method Fail()
      modifies this
      ensures View() == old(View()).(state := Failing(old(state)))
    {
      if state != Rejected { state := Failed; }
    }

    /** Marks the entry as silently handled; it keeps its state. */
    method Consume()
      modifies this
      ensures View() == old(View()).(consumed := old(consumed) || (old(state) != Rejected && old(state) != Failed))
    {
      if state != Rejected && state != Failed { consumed := true; }
    }

    method Set(key: Field, value: Value)
      modifies this
      ensures View() == old(View()).(fields := old(fields)[key := value])
    {
      fields := fields[key := value];
    }

    method Clone() returns (c: Entry)
      ensures fresh(c) && c.View() == View()
    {
      c := new Entry.Of(View());
    }
  }

  function Views(es: seq<Entry>): (items: seq<Item>)
    reads set e | e in es
    ensures |items| == |es| && forall i :: 0 <= i < |es| ==> items[i] == es[i].View()
  {
    if es == [] then [] else Views(es[..|es| - 1]) + [es[|es| - 1].View()]
  }

  lemma {:induction false} ViewsAppend(a: seq<Entry>, b: seq<Entry>)
    ensures Views(a + b) == Views(a) + Views(b)
  {
  }

  /** The three tests the executor splits entries by. */
  datatype Test = InStates(states: set<State>) | IsConsumed | IsMarker

  predicate Holds(t: Test, i: Item) {
    match t
    case InStates(states) => i.state in states
    case IsConsumed => i.consumed
    case IsMarker => i.marker
  }

  /** The items for which a test comes out as wanted, in order. */
  function Keep(items: seq<Item>, t: Test, want: bool): seq<Item> {
    if items == [] then []
    else
      var n := |items| - 1;
      Keep(items[..n], t, want) + if Holds(t, items[n]) == want then [items[n]] else []
  }

  lemma {:induction false} KeepIs(items: seq<Item>, t: Test, want: bool)
    ensures forall i :: i in Keep(items, t, want) <==> i in items && Holds(t, i) == want
  {
    if items != [] {
      var n := |items| - 1;
      KeepIs(items[..n], t, want);
      assert items == items[..n] + [items[n]];
    }
  }

  lemma KeepSnoc(es: seq<Entry>, k: nat, t: Test, want: bool)
    requires k < |es|
    ensures Keep(Views(es)[..k + 1], t, want)
      == Keep(Views(es)[..k], t, want) + if Holds(t, es[k].View()) == want then [es[k].View()] else []
  {
    assert Views(es)[..k + 1][..k] == Views(es)[..k];
  }

  /** SplitByStates, SplitConsumed and SplitMarker: the entries with and without a property, in order. */
  method Split(es: seq<Entry>, t: Test) returns (yes: seq<Entry>, no: seq<Entry>)
    ensures Views(yes) == Keep(Views(es), t, true) && Views(no) == Keep(Views(es), t, false)
    ensures forall e :: e in yes <==> e in es && Holds(t, e.View())
    ensures forall e :: e in no <==> e in es && !Holds(t, e.View())
  {
    hide Keep, Views, Holds;
    yes, no := [], [];
    SplitStart(es, t);
    for k := 0 to |es|
      invariant Views(yes) == Keep(Views(es)[..k], t, true) && Views(no) == Keep(Views(es)[..k], t, false)
      invariant forall e :: e in yes <==> e in es[..k] && Holds(t, e.View())
      invariant forall e :: e in no <==> e in es[..k] && !Holds(t, e.View())
    {
      KeepSnoc(es, k, t, true);
      KeepSnoc(es, k, t, false);
      assert es[..k + 1] == es[..k] + [es[k]];
      if Holds(t, es[k].View()) {
        ViewsSnoc(yes, es[k]);
        yes := yes + [es[k]];
      } else {
        ViewsSnoc(no, es[k]);
        no := no + [es[k]];
      }
    }
    assert Views(es)[..|es|] == Views(es);
    assert es[..|es|] == es;
  }

  lemma SplitStart(es: seq<Entry>, t: Test)
    ensures Views([]) == Keep(Views(es)[..0], t, true) && Views([]) == Keep(Views(es)[..0], t, false)
  {
  }

  lemma ViewsSnoc(es: seq<Entry>, e: Entry)
    ensures Views(es + [e]) == Views(es) + [e.View()]
  {
  }
}
