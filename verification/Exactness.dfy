/**
  That the validator's values claim as much as is right: whatever is not
  claimed of a state can really be missing there.
 */
module Exactness {
  import opened Entries
  import opened StateCert
  import opened CertMeaning
  import opened FieldFlow
  import opened Conditions
  import opened Validate
  import opened Graph
  import opened Soundness

  /** An entry can come out of the effect in state t. */
  ghost predicate CanReach(c: Cert, e: Effect, t: State) {
    exists i, j :: Describes(c, i) && Steps(e, i, j) && j.state == t
  }

  /** And without f. */
  ghost predicate CanLack(c: Cert, e: Effect, t: State, f: Field) {
    exists i, j :: Describes(c, i) && Steps(e, i, j) && j.state == t && !j.Has(f)
  }

  /** What is not claimed can be missing. */
  ghost predicate Tight(c: Cert, e: Effect, after: Cert) {
    forall t, f :: CanReach(c, e, t) && f !in after.At(t) + STRUCT ==> CanLack(c, e, t, f)
  }

  lemma Lacking(c: Cert, e: Effect, s: State, from: set<Field>, t: State, into: set<Field>, f: Field)
    requires s in c.populated && c.At(s) <= from && f !in into + STRUCT
    requires Steps(e, Bare(s, from), Bare(t, into))
    ensures CanLack(c, e, t, f)
  {
    BareHas(s, from);
    BareHas(t, into);
    assert Describes(c, Bare(s, from));
  }

  lemma WriteTight(c: Cert, states: set<State>, fields: set<Field>)
    ensures Tight(c, Write(states, fields), c.Produced(states, fields))
  {
    var e, after := Write(states, fields), c.Produced(states, fields);
    forall t, f | CanReach(c, e, t) && f !in after.At(t) + STRUCT ensures CanLack(c, e, t, f) {
      assert t in c.populated;
      var into := if t in states then c.At(t) + fields else c.At(t);
      BareHas(t, c.At(t));
      BareHas(t, into);
      assert Steps(e, Bare(t, c.At(t)), Bare(t, into));
      ProducedAt(c, states, fields, t);
      Lacking(c, e, t, c.At(t), t, into, f);
    }
  }

  lemma ProducedAt(c: Cert, states: set<State>, fields: set<Field>, t: State)
    requires t in c.populated
    ensures c.Produced(states, fields).At(t) == if t in states then c.At(t) + fields else c.At(t)
  {
  }

  lemma ClassifyTight(c: Cert, fields: set<Field>)
    requires fields != {} && Classifiable(c, PASSING, fields)
    ensures Tight(c, Classify(PASSING, fields), c.Produced(PASSING, fields))
  {
    var e, after := Classify(PASSING, fields), c.Produced(PASSING, fields);
    forall t, f | CanReach(c, e, t) && f !in after.At(t) + STRUCT ensures CanLack(c, e, t, f) {
      var s := if t in c.populated then t else Undecided;
      assert s in c.populated;
      var into := if t in PASSING then c.At(s) + fields else c.At(s);
      BareHas(s, c.At(s));
      BareHas(t, into);
      assert Steps(e, Bare(s, c.At(s)), Bare(t, into));
      Lacking(c, e, s, c.At(s), t, into, f);
    }
  }

  lemma FlipTight(c: Cert, a: State, b: State)
    ensures Tight(c, FlipStates(a, b), c.Swapped(a, b))
  {
    var e, after := FlipStates(a, b), c.Swapped(a, b);
    forall t, f | CanReach(c, e, t) && f !in after.At(t) + STRUCT ensures CanLack(c, e, t, f) {
      var s := Flip(a, b, t);
      assert s in c.populated && Steps(e, Bare(s, c.At(s)), Bare(t, c.At(s)));
      Lacking(c, e, s, c.At(s), t, c.At(s), f);
    }
  }

  /** An entry with these fields, none of them empty. */
  function Full(s: State, fields: set<Field>): Item {
    Item("", "", "", "", s, false, false, map f | f in fields :: Other)
  }

  lemma FullHas(s: State, fields: set<Field>)
    ensures forall f :: Full(s, fields).Has(f) <==> f in fields + STRUCT
    ensures forall f :: f in fields ==> !IsMissing(Full(s, fields).Get(f).0)
  {
  }

  /** A require filter: but for the anchor, which is taken out of the Rejected bucket. */
  lemma FilterTight(c: Cert, needed: seq<Field>, promoted: set<Field>, anchor: Field, t: State, f: Field)
    requires promoted <= SetOf(needed) && promoted != {} && (f in needed ==> f in promoted)
    requires CanReach(c, Filter(needed), t) && f !in c.Narrowed(promoted, anchor).At(t) + STRUCT
    requires t == Rejected ==> f != anchor
    ensures CanLack(c, Filter(needed), t, f)
  {
    hide Cert.Narrowed, Cert.Effective, Lacks, CanReach;
    var e := Filter(needed);
    FilterReaches(c, needed, t);
    if PASSING * c.populated == {} {
      NarrowedNothing(c, anchor);
      assert t in PASSING ==> t in PASSING * c.populated;
      Stays(c, needed, t, f);
    } else if t == Rejected {
      NarrowedAt(c, promoted, anchor);
      if Rejected in c.populated && f !in c.rejected {
        Stays(c, needed, t, f);
      } else {
        assert f !in c.Effective(PASSING);
        var s := NotEffective(c, f);
        BareLacks(s, c.At(s), needed);
        assert Steps(e, Bare(s, c.At(s)), Bare(Rejected, c.At(s)));
        Lacking(c, e, s, c.At(s), Rejected, c.At(s), f);
      }
    } else {
      NarrowedAt(c, promoted, anchor);
      assert t in c.populated;
      if t in PASSING {
        var fields := c.At(t) + SetOf(needed);
        FullHas(t, fields);
        var i := Full(t, fields);
        assert !Lacks(i, needed) by { NothingLacking(i, needed); }
        assert f !in fields && Describes(c, i) && Steps(e, i, i);
      } else {
        Stays(c, needed, t, f);
      }
    }
  }

  lemma Stays(c: Cert, needed: seq<Field>, t: State, f: Field)
    requires t in c.populated && t !in PASSING && f !in c.At(t) + STRUCT
    ensures CanLack(c, Filter(needed), t, f)
  {
    Lacking(c, Filter(needed), t, c.At(t), t, c.At(t), f);
  }

  lemma NotEffective(c: Cert, f: Field) returns (s: State)
    requires PASSING * c.populated != {} && f !in c.Effective(PASSING)
    ensures s in PASSING * c.populated && f !in c.At(s)
  {
    EffectivePassing(c);
    s := if Undecided in c.populated && f !in c.undecided then Undecided else Accepted;
  }

  lemma FilterReaches(c: Cert, needed: seq<Field>, t: State)
    requires CanReach(c, Filter(needed), t)
    ensures t in c.populated || (t == Rejected && PASSING * c.populated != {})
  {
    hide Lacks;
    var i, j :| Describes(c, i) && Steps(Filter(needed), i, j) && j.state == t;
    assert i.state in PASSING ==> i.state in PASSING * c.populated;
  }

  lemma BareLacks(s: State, fields: set<Field>, needed: seq<Field>)
    requires needed != []
    ensures Lacks(Bare(s, fields), needed)
  {
    assert IsMissing(Bare(s, fields).Get(needed[0]).0);
  }

  lemma NothingLacking(i: Item, needed: seq<Field>)
    requires forall f :: f in needed ==> !IsMissing(i.Get(f).0)
    ensures !Lacks(i, needed)
  {
  }

  /** What the plugin can do to what enters the node. */
  ghost predicate NodeTight(d: Descriptor, classifier: bool, into: Flow, t: State, f: Field)
    requires Registered(d) && !d.kind.Condition?
  {
    var e := EffectOf(d, classifier);
    CanReach(into.cert, e, t) && f !in Leaving(d, into).cert.At(t) + STRUCT ==> CanLack(into.cert, e, t, f)
  }

  /** A node on a plugin that sets fields: every other field can be missing behind it. */
  lemma OrdinaryTight(d: Descriptor, classifier: bool, into: Flow, t: State, f: Field)
    requires Registered(d) && d.kind.Ordinary? && !d.role.Source?
    requires classifier ==>
      d.produces != [] && InputStates(d) == PASSING && Classifiable(into.cert, PASSING, AllProduces(d))
    ensures NodeTight(d, classifier, into, t, f)
  {
    hide Describes, Steps, InputStates, Cert.Added, Cert.Produced, Tight, CanReach, CanLack, SubFields;
    NoSetOf(d);
    var c, states, all := into.cert, InputStates(d), AllProduces(d);
    if classifier {
      ClassifyTight(c, all);
      assert Tight(c, Classify(states, all), c.Produced(states, all));
    } else {
      WriteTight(c, states, all);
    }
    if classifier || t in c.populated { SubsOnTop(c, states, SetOf(d.produces), SubFields(d.subs), t); }
    ReachedWhere(c, states, all, t);
    OrdinaryLeaves(d, into);
    TightAt(c, EffectOf(d, classifier), c.Produced(states, all), t, f);
  }

  lemma OrdinaryLeaves(d: Descriptor, into: Flow)
    requires d.kind.Ordinary? && !d.role.Source?
    ensures Leaving(d, into).cert ==
      into.cert.Produced(InputStates(d), SetOf(d.produces)).Added(InputStates(d), SubFields(d.subs))
  {
  }

  lemma SubsOnTop(c: Cert, states: set<State>, fields: set<Field>, more: set<Field>, t: State)
    requires t in c.populated || fields != {}
    ensures c.Produced(states, fields).Added(states, more).At(t) == c.Produced(states, fields + more).At(t)
  {
  }

  lemma ReachedWhere(c: Cert, states: set<State>, fields: set<Field>, t: State)
    ensures CanReach(c, Write(states, fields), t) ==> t in c.populated
  {
  }

  lemma TightAt(c: Cert, e: Effect, after: Cert, t: State, f: Field)
    requires Tight(c, e, after)
    ensures CanReach(c, e, t) && f !in after.At(t) + STRUCT ==> CanLack(c, e, t, f)
  {
    hide CanReach, CanLack;
  }

  lemma RequireTight(d: Descriptor, into: Flow, t: State, f: Field)
    requires Registered(d) && d.kind.Require? && f != ""
    requires t == Rejected && RequireFields(d.kind.fields) != [] ==> f != RequireFields(d.kind.fields)[0]
    ensures NodeTight(d, false, into, t, f)
  {
    hide Describes, Steps, Cert.Narrowed, Cert.Produced, Tight, CanReach, CanLack, Lacks;
    var c, fields, named := into.cert, d.kind.fields, RequireFields(d.kind.fields);
    PlainLeaving(d, into);
    if named == [] {
      WriteTight(c, {}, {});
      NothingProduced(c);
      TightAt(c, Write({}, {}), c.Produced({}, {}), t, f);
    } else {
      NamedFields(fields);
      assert named[0] in SetOf(named);
      if CanReach(c, Filter(fields), t) && f !in c.Narrowed(SetOf(named), named[0]).At(t) + STRUCT {
        FilterTight(c, fields, SetOf(named), named[0], t, f);
      }
    }
  }

  lemma NothingProduced(c: Cert)
    ensures c.Produced({}, {}) == c
  {
  }

  lemma {:induction false} NamedFields(fields: seq<Field>)
    ensures forall f :: f in RequireFields(fields) <==> f in fields && f != ""
    ensures SetOf(RequireFields(fields)) <= SetOf(fields)
  {
    if fields != [] {
      var n := |fields| - 1;
      NamedFields(fields[..n]);
      assert fields == fields[..n] + [fields[n]];
    }
  }

  lemma SwapTight(d: Descriptor, into: Flow, t: State, f: Field)
    requires Registered(d) && d.kind.SwapState?
    ensures NodeTight(d, false, into, t, f)
  {
    hide Describes, Steps, Cert.Swapped, Tight, CanReach, CanLack;
    var a, b := ParseStateName(d.kind.names[0]).state, ParseStateName(d.kind.names[1]).state;
    PlainLeaving(d, into);
    FlipTight(into.cert, a, b);
    TightAt(into.cert, FlipStates(a, b), into.cert.Swapped(a, b), t, f);
  }

  /** A source can leave out whatever it does not declare. */
  lemma SourceTight(d: Descriptor, f: Field)
    requires d.role.Source? && d.kind.Ordinary? && f !in Leaving(d, FieldFlow.NOTHING).cert.undecided + STRUCT
    ensures exists o: Item :: o.state == Undecided && (forall g :: g in AllProduces(d) ==> o.Has(g)) && !o.Has(f)
  {
    hide SubFields;
    assert AfterProduces(d, FieldFlow.NOTHING).cert == Cert(SetOf(d.produces), {}, {}, {}, {Undecided});
    BareHas(Undecided, AllProduces(d));
    assert !Bare(Undecided, AllProduces(d)).Has(f);
  }

  // --- What is inferred of conditions and ports, for the fields there may be ---

  /** An accept rule, where nothing was accepted before: what it accepts has these fields, and no others for sure. */
  lemma AcceptExact(narrows: seq<Field>, into: Flow, f: Field)
    requires Accepted !in into.cert.populated && Undecided in into.cert.populated && f in into.reach
    ensures var after := AfterAccept(narrows, into).cert;
      && after.populated == into.cert.populated + {Accepted}
      && (f in after.accepted + STRUCT <==> forall i ::
            Describes(into.cert, i) && i.state in PASSING && HasAll(i, narrows) ==> Taken(i).Has(f))
  {
    var c, after, all := into.cert, AfterAccept(narrows, into).cert, into.cert.undecided + SetOf(narrows);
    BareHas(Undecided, all);
    BareHas(Accepted, all);
    assert Describes(c, Bare(Undecided, all)) && HasAll(Bare(Undecided, all), narrows);
    assert Taken(Bare(Undecided, all)) == Bare(Accepted, all);
    if f in all + STRUCT {
      forall i | Describes(c, i) && i.state in PASSING && HasAll(i, narrows) ensures Taken(i).Has(f) {
        StructHas(i);
        assert Taken(i).Get(f) == i.Get(f);
      }
    }
  }

  /** What a reject rule leaves in the state whose bucket it is measured by has these fields, and no others for sure. */
  lemma RejectExact(removes: seq<Field>, promotes: seq<Field>, into: Flow, f: Field)
    requires PASSING * into.cert.populated != {} && f in into.reach && f !in removes
    ensures var after := AfterReject(removes, promotes, into);
      var s := if Undecided in into.cert.populated then Undecided else Accepted;
      && f in after.reach
      && (f in after.cert.At(s) + STRUCT <==>
            forall i :: Describes(into.cert, i) && i.state == s && HasAll(i, promotes) ==> i.Has(f))
  {
    hide Cert.Effective, Least;
    var c, after, s := into.cert, AfterReject(removes, promotes, into),
      if Undecided in into.cert.populated then Undecided else Accepted;
    var all := c.At(s) + SetOf(promotes);
    assert s in PASSING * c.populated;
    BareHas(s, all);
    assert Describes(c, Bare(s, all)) && HasAll(Bare(s, all), promotes);
    RejectClaims(removes, promotes, into, s, f);
    if f in all + STRUCT {
      forall i | Describes(c, i) && i.state == s && HasAll(i, promotes) ensures i.Has(f) {
        StructHas(i);
      }
    }
  }

  lemma RejectClaims(removes: seq<Field>, promotes: seq<Field>, into: Flow, s: State, f: Field)
    requires s == (if Undecided in into.cert.populated then Undecided else Accepted) && s in into.cert.populated
    requires f in into.reach && f !in removes
    ensures f in AfterReject(removes, promotes, into).cert.At(s) <==> f in into.cert.At(s) || f in promotes
  {
    hide Cert.Effective, Least, Cert.Narrowed;
    var left := Without(into, SetOf(removes) * into.reach);
    var added := Fresh(promotes, left.reach, Reference(left.cert));
    assert s in PASSING * left.cert.populated;
    if added != {} {
      NarrowedAt(left.cert, added, Least(promotes, added));
    } else {
      NarrowedNothing(left.cert, Least(promotes, added));
      assert f in left.reach;
      assert f in promotes && f !in Reference(left.cert) ==> f in added;
    }
  }

  /** A field a reject rule takes out is neither there any more nor certain of what passes. */
  lemma RejectForgets(removes: seq<Field>, promotes: seq<Field>, into: Flow, f: Field, s: State)
    requires f in removes && f in into.reach && s in PASSING
    ensures var after := AfterReject(removes, promotes, into); f !in after.reach && f !in after.cert.At(s)
  {
    hide Cert.Effective, Least, Cert.Narrowed;
    var left := Without(into, SetOf(removes) * into.reach);
    var added := Fresh(promotes, left.reach, Reference(left.cert));
    if added != {} && PASSING * left.cert.populated != {} {
      NarrowedAt(left.cert, added, Least(promotes, added));
    } else {
      NarrowedNothing(left.cert, Least(promotes, added));
    }
  }

  /** The field a reject rule names as absent takes nothing away: what it promotes was not certain before. */
  lemma AbsentIdle(removes: seq<Field>, promotes: seq<Field>, into: Flow)
    ensures var left := Without(into, SetOf(removes) * into.reach);
      var added := Fresh(promotes, left.reach, Reference(left.cert));
      AfterReject(removes, promotes, into) == left.(cert := left.cert.Narrowed(added, ""))
  {
    hide Cert.Effective;
    var left := Without(into, SetOf(removes) * into.reach);
    var added := Fresh(promotes, left.reach, Reference(left.cert));
    if added != {} {
      EffectivePassing(left.cert);
      LeastAmong(promotes, added);
      assert left.cert.NewlyRejected(Least(promotes, added)) == left.cert.NewlyRejected("");
    } else {
      NarrowedNothing(left.cert, Least(promotes, added));
      NarrowedNothing(left.cert, "");
    }
  }

  lemma LeastAmong(promotes: seq<Field>, added: set<Field>)
    requires added != {} && added <= SetOf(promotes)
    ensures Least(promotes, added) in added
  {
    hide Leq;
    assert SetOf(promotes) * added == added;
    LeastIs(promotes, added);
  }

  /** What a route port lets through: of the accepted entries, these fields, and no others for sure. */
  lemma PortExact(port: Port, into: Flow, f: Field)
    requires Accepted in into.cert.populated && f in into.reach && f !in port.removes
    ensures var after := AfterPort(port, into);
      && f in after.reach
      && (f in after.cert.accepted + STRUCT <==>
            forall i :: Describes(into.cert, i) && i.state == Accepted && HasAll(i, port.narrows) ==> i.Has(f))
  {
    hide Cert.Effective;
    var c, after, all := into.cert, AfterPort(port, into), into.cert.accepted + SetOf(port.narrows);
    assert Accepted in PASSING * c.populated;
    BareHas(Accepted, all);
    assert Describes(c, Bare(Accepted, all)) && HasAll(Bare(Accepted, all), port.narrows);
    if f in all + STRUCT {
      forall i | Describes(c, i) && i.state == Accepted && HasAll(i, port.narrows) ensures i.Has(f) {
        StructHas(i);
      }
    }
  }

  // --- What a node is checked against ---

  /** The fields every entry has that the node can be called with or, if there can be none, every passing entry. */
  lemma CertainForExact(d: Descriptor, into: Flow, f: Field)
    requires InputStates(d) * into.cert.populated != {} || PASSING * into.cert.populated != {}
    ensures var states := if InputStates(d) * into.cert.populated != {} then InputStates(d) else PASSING;
      f in CertainFor(d, into) + STRUCT <==>
        forall i :: Describes(into.cert, i) && i.state in states ==> i.Has(f)
  {
    hide Describes, Cert.Effective, InputStates;
    var c, states := into.cert, InputStates(d);
    if states * c.populated != {} {
      EffectiveExact(c, states, f);
      assert c.populated * states != {};
    } else {
      NoneEffective(c, states);
      var s :| s in PASSING * c.populated;
      assert s in c.populated && c.populated * states == states * c.populated;
      EffectiveExact(c, PASSING, f);
      SameEffective(c);
    }
  }

  lemma NoneEffective(c: Cert, states: set<State>)
    requires states * c.populated == {}
    ensures c.Effective(states) == {}
  {
  }

  lemma SameEffective(c: Cert)
    ensures c.Effective(c.populated * PASSING) == c.Effective(PASSING)
  {
    assert (c.populated * PASSING) * c.populated == PASSING * c.populated;
  }
}
