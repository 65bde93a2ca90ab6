/**
  Field certainty by entry state (internal/dag/statecert.go): the abstract
  values the validator pushes through the graph.
 */
module StateCert {
  import opened Entries

  const ALL_STATES: seq<State> := [Undecided, Accepted, Rejected, Failed]

  const ALL: set<State> := {Undecided, Accepted, Rejected, Failed}

  const PASSING: set<State> := {Accepted, Undecided}

  /** What Entry.Get finds on every entry, whatever its metadata bag holds. */
  const STRUCT: set<Field> := {"title", "url", "original_url", "task"}

  /** Where swap_state sends an entry. */
  function Flip(a: State, b: State, s: State): State { if s == a then b else if s == b then a else s }

  function SwapBits(was: set<State>, a: State, b: State): (now: set<State>)
    ensures forall s :: s in now <==> Flip(a, b, s) in was
  {
    was - {a, b} + (if a in was then {b} else {}) + (if b in was then {a} else {})
  }

  /** The fields certain of entries in each state, and the states there may be entries in. */
  datatype Cert = Cert(
    undecided: set<Field>,
    accepted: set<Field>,
    rejected: set<Field>,
    failed: set<Field>,
    populated: set<State>
  ) {
    function At(s: State): set<Field> {
      match s
      case Undecided => undecided
      case Accepted => accepted
      case Rejected => rejected
      case Failed => failed
    }

    function With(s: State, fields: set<Field>): (c: Cert)
      ensures c.At(s) == fields && c.populated == populated
      ensures forall t :: t != s ==> c.At(t) == At(t)
    {
      match s
      case Undecided => this.(undecided := fields)
      case Accepted => this.(accepted := fields)
      case Rejected => this.(rejected := fields)
      case Failed => this.(failed := fields)
    }

    function Marked(states: set<State>): (c: Cert)
      ensures forall s :: c.At(s) == At(s)
    {
      this.(populated := populated + states)
    }

    /** The fields certain of every entry in any of these states; none if there can be no such entry. */
    function Effective(states: set<State>): set<Field> {
      set f | f in undecided + accepted + rejected + failed
              && states * populated != {} && forall s :: s in states * populated ==> f in At(s)
    }

    function Added(states: set<State>, fields: set<Field>): (c: Cert)
      ensures c.populated == populated
      ensures forall s :: c.At(s) == if s in states * populated then At(s) + fields else At(s)
    {
      Cert(if Undecided in states * populated then undecided + fields else undecided,
           if Accepted in states * populated then accepted + fields else accepted,
           if Rejected in states * populated then rejected + fields else rejected,
           if Failed in states * populated then failed + fields else failed, populated)
    }

    function Swapped(a: State, b: State): (c: Cert)
      ensures forall s :: s in c.populated <==> Flip(a, b, s) in populated
      ensures forall s :: c.At(s) == At(Flip(a, b, s))
    {
      Cert(At(Flip(a, b, Undecided)), At(Flip(a, b, Accepted)), At(Flip(a, b, Rejected)), At(Flip(a, b, Failed)),
           SwapBits(populated, a, b))
    }

    /** For a state that only one side populates, that side's bucket. */
    function Meeting(other: Cert, s: State): set<Field> {
      if s in populated && s in other.populated then At(s) * other.At(s)
      else if s in populated then At(s)
      else if s in other.populated then other.At(s)
      else {}
    }

    function Intersection(other: Cert): Cert {
      Cert(Meeting(other, Undecided), Meeting(other, Accepted), Meeting(other, Rejected), Meeting(other, Failed),
           populated + other.populated)
    }

    /** What is certain of entries a filter now rejects: whatever was certain wherever they came from. */
    function NewlyRejected(absent: Field): set<Field> {
      Effective(PASSING) - if absent == "" then {} else {absent}
    }

    function Narrowed(promotes: set<Field>, absent: Field): Cert {
      if promotes == {} || PASSING * populated == {} then this
      else
        Added(PASSING, promotes)
        .With(Rejected, if Rejected in populated then rejected * NewlyRejected(absent) else NewlyRejected(absent))
        .Marked({Rejected})
    }

    function Promoted(promotes: set<Field>): Cert {
      var inherited := if Accepted !in populated && Undecided in populated then With(Accepted, undecided) else this;
      inherited.Marked({Accepted}).Added({Accepted}, promotes)
    }

    /** What a node with these Produces does to a value: it marks its states populated and sets the fields there. */
    function Produced(states: set<State>, fields: set<Field>): Cert {
      if fields == {} then this
      else
        var inherited :=
          if Accepted in states && Accepted !in populated &&
            Undecided in populated then With(Accepted, undecided) else this;
        inherited.Marked(states).Added(states, fields)
    }

    function Removed(fields: set<Field>): (c: Cert)
      ensures c.populated == populated
      ensures forall s :: c.At(s) == if s in PASSING then At(s) - fields else At(s)
    {
      this.(accepted := accepted - fields, undecided := undecided - fields)
    }
  }

  /** What narrowing comes to, state by state. */
  lemma NarrowedAt(c: Cert, promotes: set<Field>, absent: Field)
    requires promotes != {} && PASSING * c.populated != {}
    ensures c.Narrowed(promotes, absent).populated == c.populated + {Rejected}
    ensures c.Narrowed(promotes, absent).At(Rejected)
      == if Rejected in c.populated then c.At(Rejected) * c.NewlyRejected(absent) else c.NewlyRejected(absent)
    ensures forall s :: s != Rejected ==> c.Narrowed(promotes, absent).At(s) == c.Added(PASSING, promotes).At(s)
  {
    hide Cert.Effective, Cert.Added;
  }

  lemma EffectivePassing(c: Cert)
    ensures c.Effective(PASSING) ==
      if Accepted in c.populated && Undecided in c.populated then c.accepted * c.undecided
      else if Accepted in c.populated then c.accepted
      else if Undecided in c.populated then c.undecided
      else {}
  {
    if Accepted in c.populated { assert Accepted in PASSING * c.populated; }
    if Undecided in c.populated { assert Undecided in PASSING * c.populated; }
  }

  lemma SameCert(c: Cert, e: Cert)
    requires (forall s :: c.At(s) == e.At(s)) && (forall s :: s in c.populated <==> s in e.populated)
    ensures c == e
  {
    assert c.undecided == c.At(Undecided) && c.accepted == c.At(Accepted);
    assert c.rejected == c.At(Rejected) && c.failed == c.At(Failed);
    assert c.populated == e.populated;
  }

  type Buckets = map<State, set<Field>>

  /** A nil map, which is absent here, reads as empty. */
  function FieldsIn(buckets: Buckets, s: State): set<Field> { if s in buckets then buckets[s] else {} }

  lemma NarrowedNothing(c: Cert, absent: Field)
    ensures c.Narrowed({}, absent) == c
    ensures PASSING * c.populated == {} ==> forall promotes :: c.Narrowed(promotes, absent) == c
  {
  }

  ghost function ViewOf(buckets: Buckets, populated: set<State>): (c: Cert)
    ensures c.populated == populated && forall s :: c.At(s) == FieldsIn(buckets, s)
  {
    Cert(FieldsIn(buckets, Undecided), FieldsIn(buckets, Accepted), FieldsIn(buckets, Rejected),
      FieldsIn(buckets, Failed), populated)
  }

  lemma SwapBitsAre(was: set<State>, a: State, b: State)
    ensures a in was && b in was ==> SwapBits(was, a, b) == was - {a, b} + {b} + {a}
    ensures a in was && b !in was ==> SwapBits(was, a, b) == was - {a, b} + {b}
    ensures a !in was && b in was ==> SwapBits(was, a, b) == was - {a, b} + {a}
    ensures a !in was && b !in was ==> SwapBits(was, a, b) == was - {a, b}
  {
  }

  /** The buckets with two of them exchanged, nil or not. */
  function Exchanged(buckets: Buckets, a: State, b: State): (r: Buckets)
    ensures forall s :: s in r <==> Flip(a, b, s) in buckets
    ensures forall s :: s in r ==> r[s] == buckets[Flip(a, b, s)]
  {
    EachInAll();
    map s | s in ALL && Flip(a, b, s) in buckets :: buckets[Flip(a, b, s)]
  }

  lemma SwapDone(before: Buckets, was: set<State>, a: State, b: State)
    ensures ViewOf(Exchanged(before, a, b), SwapBits(was, a, b)) == ViewOf(before, was).Swapped(a, b)
  {
    hide Cert.Swapped, SwapBits, Exchanged, ViewOf;
    SameCert(ViewOf(Exchanged(before, a, b), SwapBits(was, a, b)), ViewOf(before, was).Swapped(a, b));
  }

  lemma SwapNothing(c: Cert, a: State)
    ensures c == c.Swapped(a, a)
  {
    hide Cert.Swapped;
    SameCert(c, c.Swapped(a, a));
  }

  const EMPTY: Cert := Cert({}, {}, {}, {}, {})

  function SetOf(fields: seq<Field>): set<Field> { set f | f in fields }

  // --- The structure itself ---

  /**
    Four buckets, any of which may be a nil map: absent here, it reads as empty,
    nothing can be deleted from it, and writing to it panics. The zero value,
    which stands for a node the validator has skipped, has not even the slots
    for them.
   */
  class StateCertainty {
    var slots: bool
    var buckets: Buckets
    var populated: set<State>

    ghost predicate Valid()
      reads this
    {
      !slots ==> buckets == map[] && populated == {}
    }

    ghost function View(): (c: Cert)
      reads this
      ensures c.undecided == Get(Undecided) && c.accepted == Get(Accepted)
    {
      ViewOf(buckets, populated)
    }

    /** The nil maps among the buckets addAll and its like would write to. */
    function NilAmong(states: set<State>): set<State>
      reads this
    {
      states * populated - buckets.Keys
    }

    /** Nothing can panic. */
    ghost predicate Sturdy()
      reads this
    {
      slots && forall s: State :: s in buckets
    }

    function Get(s: State): set<Field>
      reads this
    {
      FieldsIn(buckets, s)
    }

    constructor ()
      ensures Valid() && Sturdy() && View() == EMPTY
    {
      EachInAll();
      slots, buckets, populated := true, map s | s in ALL :: {}, {};
    }

    constructor Zero()
      ensures Valid() && !slots && View() == EMPTY
    {
      slots, buckets, populated := false, map[], {};
    }

    /** Makes the slots, and fills them as far as there are buckets to copy. */
    method Copy() returns (c: StateCertainty)
      requires Valid()
      ensures fresh(c) && c.Valid() && c.slots && c.View() == View()
      ensures if slots then c.Sturdy() else c.buckets == map[]
    {
      c := new StateCertainty.Zero();
      c.slots, c.populated := true, populated;
      if slots {
        EachInAll();
        c.buckets := map s | s in ALL :: Get(s);
      }
    }

    method CopyBucket(src: State, dst: State)
      requires Valid() && slots
      modifies this
      ensures Valid() && slots && populated == old(populated) && View() == old(View()).With(dst, old(View()).At(src))
      ensures buckets.Keys == old(buckets).Keys + if src == dst then {} else {dst}
    {
      if src != dst {
        buckets := buckets[dst := Get(src)];
      }
      SameCert(View(), old(View()).With(dst, old(View()).At(src)));
    }

    method MarkPopulated(states: set<State>)
      requires Valid() && slots
      modifies this
      ensures Valid() && slots && buckets == old(buckets) && View() == old(View()).Marked(states)
    {
      populated := populated + states;
    }

    method AddAll(states: set<State>, fields: seq<Field>) returns (panicked: bool)
      requires Valid() && slots
      modifies this`buckets
      ensures panicked <==> fields != [] && old(NilAmong(states)) != {}
      ensures !panicked ==>
        Valid() && View() == old(View()).Added(states, SetOf(fields)) && buckets.Keys == old(buckets).Keys
    {
      for k := 0 to |ALL_STATES|
        invariant buckets.Keys == old(buckets).Keys
        invariant fields != [] ==> forall j :: 0 <= j < k ==> ALL_STATES[j] !in old(NilAmong(states))
        invariant forall j :: k <= j < |ALL_STATES| ==> Get(ALL_STATES[j]) == old(Get(ALL_STATES[j]))
        invariant forall j :: 0 <= j < k ==>
          Get(ALL_STATES[j]) == old(View()).Added(states, SetOf(fields)).At(ALL_STATES[j])
      {
        var s := ALL_STATES[k];
        if s !in states || s !in populated { continue; }
        panicked := AddEach(s, fields);
        if panicked {
          assert s in old(NilAmong(states));
          return;
        }
      }
      EachState();
      SameCert(View(), old(View()).Added(states, SetOf(fields)));
      panicked := false;
    }

    /** Its inner loop: adds the fields to one bucket. */
    method AddEach(s: State, fields: seq<Field>) returns (panicked: bool)
      requires slots
      modifies this`buckets
      ensures panicked <==> fields != [] && s !in old(buckets)
      ensures !panicked ==> buckets.Keys == old(buckets).Keys && Get(s) == old(Get(s)) + SetOf(fields)
      ensures !panicked ==> forall t :: t != s ==> Get(t) == old(Get(t))
    {
      for i := 0 to |fields|
        invariant i > 0 ==> s in old(buckets)
        invariant buckets.Keys == old(buckets).Keys && Get(s) == old(Get(s)) + SetOf(fields[..i])
        invariant forall t :: t != s ==> Get(t) == old(Get(t))
      {
        if s !in buckets { return true; }
        SetOfSnoc(fields[..i], fields[i]);
        assert fields[..i + 1] == fields[..i] + [fields[i]];
        buckets := buckets[s := buckets[s] + {fields[i]}];
      }
      assert fields[..|fields|] == fields;
      panicked := false;
    }

    method Swap(a: State, b: State)
      requires Valid() && slots
      modifies this
      ensures Valid() && slots && View() == old(View()).Swapped(a, b)
      ensures old(Sturdy()) ==> Sturdy()
      ensures old(buckets).Keys == {} ==> buckets.Keys == {}
      ensures old(populated) == {} ==> populated == {}
    {
      hide Cert.Swapped, SwapBits, ViewOf, Exchanged, FieldsIn, Flip;
      if a == b {
        SwapNothing(View(), a);
        return;
      }
      SwapDone(buckets, populated, a, b);
      buckets := Exchanged(buckets, a, b);
      SwapPopulated(a, b);
    }

    method SwapPopulated(a: State, b: State)
      modifies this`populated
      ensures populated == SwapBits(old(populated), a, b)
    {
      SwapBitsAre(populated, a, b);
      var aHad, bHad := a in populated, b in populated;
      populated := populated - {a, b};
      if aHad { populated := populated + {b}; }
      if bHad { populated := populated + {a}; }
    }

    method Intersect(other: StateCertainty) returns (c: StateCertainty)
      requires Valid() && other.Valid()
      ensures fresh(c) && c.Valid() && c.Sturdy() && c.View() == View().Intersection(other.View())
    {
      c := new StateCertainty();
      c.populated := populated + other.populated;
      for k := 0 to |ALL_STATES|
        invariant c.Sturdy() && c.populated == populated + other.populated
        invariant forall j :: 0 <= j < k ==> c.Get(ALL_STATES[j]) == View().Meeting(other.View(), ALL_STATES[j])
      {
        var s := ALL_STATES[k];
        c.buckets := c.buckets[s :=
          if s in populated && s in other.populated then Get(s) * other.Get(s)
          else if s in populated then Get(s)
          else if s in other.populated then other.Get(s)
          else {}];
      }
      EachState();
    }

    method Effective(states: set<State>) returns (out: set<Field>)
      requires Valid()
      ensures out == View().Effective(states)
    {
      out := {};
      var first := true;
      for k := 0 to |ALL_STATES|
        invariant first <==> forall j :: 0 <= j < k ==> ALL_STATES[j] !in states * populated
        invariant first ==> out == {}
        invariant !first ==> forall f :: f in out <==>
          forall j :: 0 <= j < k && ALL_STATES[j] in states * populated ==> f in Get(ALL_STATES[j])
      {
        var s := ALL_STATES[k];
        if s !in states || s !in populated { continue; }
        if first {
          out, first := Get(s), false;
        } else {
          out := out * Get(s);
        }
      }
      EachState();
    }

    method NarrowAcceptedUndecided(promotes: seq<Field>, rejectedField: Field) returns (panicked: bool)
      requires Valid() && slots
      modifies this
      ensures panicked <==> promotes != [] && old(NilAmong(PASSING)) != {}
      ensures !panicked ==> Valid() && slots && View() == old(View()).Narrowed(SetOf(promotes), rejectedField)
      ensures !panicked ==> old(buckets).Keys <= buckets.Keys
      ensures promotes == [] || old(populated) * PASSING == {} ==> unchanged(this)
    {
      hide Cert.Effective, Cert.Narrowed, Cert.Added, ViewOf;
      NarrowedNothing(View(), rejectedField);
      if |promotes| == 0 {
        assert SetOf(promotes) == {};
        return false;
      }
      if Accepted !in populated && Undecided !in populated { return false; }
      assert promotes[0] in SetOf(promotes);
      var newlyRejected := PassingFields();
      newlyRejected := if rejectedField != "" then newlyRejected - {rejectedField} else newlyRejected;
      panicked := PromotePassing(promotes);
      if panicked { return; }
      assert forall s :: Get(s) == old(View()).Added(PASSING, SetOf(promotes)).At(s);
      assert old(View()).Added(PASSING, SetOf(promotes)).At(Rejected) == old(View()).At(Rejected);
      RejectOnly(newlyRejected);
      assert Accepted in PASSING * old(populated) || Undecided in PASSING * old(populated);
      NarrowedAt(old(View()), SetOf(promotes), rejectedField);
      SameCert(View(), old(View()).Narrowed(SetOf(promotes), rejectedField));
    }

    /** What is certain of every entry that may be rejected. */
    method PassingFields() returns (fields: set<Field>)
      requires Valid()
      ensures fields == View().Effective(PASSING)
    {
      hide Cert.Effective;
      EffectivePassing(View());
      if Accepted in populated && Undecided in populated {
        fields := Get(Accepted) * Get(Undecided);
      } else if Accepted in populated {
        fields := Get(Accepted);
      } else if Undecided in populated {
        fields := Get(Undecided);
      } else {
        fields := {};
      }
    }

    /** Cuts the Rejected bucket down to these fields, or starts it with them. */
    method RejectOnly(fields: set<Field>)
      requires Valid() && slots
      modifies this
      ensures Valid() && slots && populated == old(populated) + {Rejected} && old(buckets).Keys <= buckets.Keys
      ensures Get(Rejected) == if Rejected in old(populated) then old(Get(Rejected)) * fields else fields
      ensures forall s :: s != Rejected ==> Get(s) == old(Get(s))
    {
      if Rejected !in populated {
        buckets := buckets[Rejected := fields];
        populated := populated + {Rejected};
      } else if Rejected in buckets {
        buckets := buckets[Rejected := buckets[Rejected] * fields];
      }
    }

    method PromotePassing(promotes: seq<Field>) returns (panicked: bool)
      requires Valid() && slots
      modifies this`buckets
      ensures panicked <==> promotes != [] && old(NilAmong(PASSING)) != {}
      ensures !panicked ==>
        Valid() && View() == old(View()).Added(PASSING, SetOf(promotes)) && buckets.Keys == old(buckets).Keys
    {
      for i := 0 to |promotes|
        invariant i > 0 ==> old(NilAmong(PASSING)) == {}
        invariant buckets.Keys == old(buckets).Keys
        invariant forall s :: Get(s) == if s in PASSING * populated then old(Get(s)) + SetOf(promotes[..i])
          else old(Get(s))
      {
        SetOfSnoc(promotes[..i], promotes[i]);
        assert promotes[..i + 1] == promotes[..i] + [promotes[i]];
        panicked := AddTo(Accepted, promotes[i]);
        if !panicked { panicked := AddTo(Undecided, promotes[i]); }
        if panicked {
          assert Accepted in old(NilAmong(PASSING)) || Undecided in old(NilAmong(PASSING));
          return;
        }
      }
      assert promotes[..|promotes|] == promotes;
      SameCert(View(), old(View()).Added(PASSING, SetOf(promotes)));
      panicked := false;
    }

    /** One write, to a populated bucket. */
    method AddTo(s: State, f: Field) returns (panicked: bool)
      modifies this`buckets
      ensures panicked <==> s in old(NilAmong({s}))
      ensures buckets.Keys == old(buckets).Keys && forall t :: t != s ==> Get(t) == old(Get(t))
      ensures !panicked ==> Get(s) == old(Get(s)) + if s in populated then {f} else {}
    {
      if s !in populated { return false; }
      if s !in buckets { return true; }
      buckets := buckets[s := buckets[s] + {f}];
      panicked := false;
    }

    method RemoveFromAcceptedUndecided(fields: seq<Field>)
      requires Valid() && slots
      modifies this`buckets
      ensures Valid() && View() == old(View()).Removed(SetOf(fields)) && buckets.Keys == old(buckets).Keys
    {
      for i := 0 to |fields|
        invariant buckets.Keys == old(buckets).Keys
        invariant forall s :: Get(s) == if s in PASSING then old(Get(s)) - SetOf(fields[..i]) else old(Get(s))
      {
        SetOfSnoc(fields[..i], fields[i]);
        assert fields[..i + 1] == fields[..i] + [fields[i]];
        if Accepted in buckets { buckets := buckets[Accepted := buckets[Accepted] - {fields[i]}]; }
        if Undecided in buckets { buckets := buckets[Undecided := buckets[Undecided] - {fields[i]}]; }
      }
      assert fields[..|fields|] == fields;
      SameCert(View(), old(View()).Removed(SetOf(fields)));
    }

    method PromoteAccepted(promotes: seq<Field>) returns (panicked: bool)
      requires Valid() && slots
      modifies this
      ensures panicked <==>
        promotes != [] && Accepted !in old(buckets) && !(Accepted !in old(populated) && Undecided in old(populated))
      ensures !panicked ==> Valid() && slots && View() == old(View()).Promoted(SetOf(promotes))
      ensures !panicked ==>
        old(buckets).Keys <= buckets.Keys && (Undecided !in old(populated) ==> buckets.Keys == old(buckets).Keys)
      ensures !panicked ==> populated == old(populated) + {Accepted}
    {
      if Accepted !in populated && Undecided in populated {
        CopyBucket(Undecided, Accepted);
      }
      populated := populated + {Accepted};
      ghost var marked := View();
      assert marked.At(Accepted) == Get(Accepted) && Accepted in {Accepted} * marked.populated;
      panicked := AddEach(Accepted, promotes);
      if panicked { return; }
      assert forall s :: View().At(s) == Get(s);
      SameCert(View(), marked.Added({Accepted}, SetOf(promotes)));
    }
  }

  lemma SetOfSnoc(fields: seq<Field>, f: Field)
    ensures SetOf(fields + [f]) == SetOf(fields) + {f}
  {
  }

  lemma EachInAll()
    ensures forall s: State :: s in ALL
  {
    forall s: State ensures s in ALL {
      match s
      case Undecided =>
      case Accepted =>
      case Rejected =>
      case Failed =>
    }
  }

  lemma EachState()
    ensures |ALL_STATES| == 4 && ALL_STATES[0] == Undecided && ALL_STATES[1] == Accepted &&
      ALL_STATES[2] == Rejected && ALL_STATES[3] == Failed
  {
  }
}
