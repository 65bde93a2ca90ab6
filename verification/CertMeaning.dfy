/**
  What a certainty value claims of entries, and which of the validator's
  updates (internal/dag/statecert.go) are right about what plugins do.
 */
module CertMeaning {
  import opened Entries
  import opened StateCert

  /** An entry the value allows for: in a state it says may occur, with the fields it says are certain there. */
  ghost predicate Describes(c: Cert, i: Item) {
    i.state in c.populated && forall f :: f in c.At(i.state) ==> i.Has(f)
  }

  /** `b` claims no more than `a` does. */
  ghost predicate Covers(a: Cert, b: Cert) {
    forall s :: s in a.populated ==> s in b.populated && b.At(s) <= a.At(s) + STRUCT
  }

  /** An entry with these fields and no others. */
  function Bare(s: State, fields: set<Field>): Item {
    Item("", "", "", "", s, false, false, map f | f in fields :: Nil)
  }

  lemma BareHas(s: State, fields: set<Field>)
    ensures forall f :: Bare(s, fields).Has(f) <==> f in fields + STRUCT
  {
  }

  lemma BareDescribed(c: Cert, s: State)
    ensures s in c.populated ==> Describes(c, Bare(s, c.At(s)))
  {
    BareHas(s, c.At(s));
  }

  lemma DescribesBare(c: Cert, s: State, fields: set<Field>)
    requires Describes(c, Bare(s, fields))
    ensures s in c.populated && c.At(s) <= fields + STRUCT
  {
    BareHas(s, fields);
  }

  /** Claiming no more is exactly allowing for every entry the other allows for. */
  lemma CoversExact(a: Cert, b: Cert)
    ensures Covers(a, b) <==> forall i :: Describes(a, i) ==> Describes(b, i)
  {
    if Covers(a, b) {
      forall i | Describes(a, i) ensures Describes(b, i) {
        StructHas(i);
      }
    }
    if forall i :: Describes(a, i) ==> Describes(b, i) {
      forall s | s in a.populated ensures s in b.populated && b.At(s) <= a.At(s) + STRUCT {
        BareDescribed(a, s);
        DescribesBare(b, s, a.At(s));
      }
    }
  }

  lemma StructHas(i: Item)
    ensures forall f :: f in STRUCT ==> i.Has(f)
  {
  }

  /** A merge claims what both sides claim, and nothing less can be said of both. */
  lemma IntersectionLeast(a: Cert, b: Cert, c: Cert)
    ensures Covers(a, a.Intersection(b)) && Covers(b, a.Intersection(b))
    ensures Covers(a, c) && Covers(b, c) ==> Covers(a.Intersection(b), c)
  {
    forall s ensures a.Intersection(b).At(s) == a.Meeting(b, s) {
    }
  }

  /** A field is effective for some states exactly when every entry there can be in them has it. */
  lemma EffectiveExact(c: Cert, states: set<State>, f: Field)
    requires states * c.populated != {}
    ensures f in c.Effective(states) + STRUCT <==> forall i :: Describes(c, i) && i.state in states ==> i.Has(f)
  {
    var s0 :| s0 in states * c.populated;
    if f in c.Effective(states) + STRUCT {
      forall i | Describes(c, i) && i.state in states ensures i.Has(f) {
        StructHas(i);
        assert f in c.Effective(states) ==> i.state in states * c.populated;
      }
    } else {
      assert f in c.At(s0) ==> f in c.undecided + c.accepted + c.rejected + c.failed;
      var s :| s in states * c.populated && f !in c.At(s);
      BareDescribed(c, s);
      BareHas(s, c.At(s));
      assert !Bare(s, c.At(s)).Has(f);
    }
  }

  // --- What plugins do to an entry ---

  /** isMissing of the require filter. */
  predicate IsMissing(v: Value) {
    match v
    case Nil => true
    case Text(t) => t == ""
    case Number(n) => n == 0.0
    case Flag(b) => !b
    case Moment(t) => t == 0
    case Texts(l) => l == []
    case Other => false
  }

  predicate Lacks(i: Item, fields: seq<Field>) {
    exists k :: 0 <= k < |fields| && IsMissing(i.Get(fields[k]).0)
  }

  datatype Effect =
    | Write(states: set<State>, fields: set<Field>)     // an enricher sets these fields
    | Classify(states: set<State>, fields: set<Field>)  // a classifier sets them on what it accepts
    | Filter(needed: seq<Field>)                        // require rejects what lacks one of these
    | FlipStates(a: State, b: State)                    // swap_state
    | AcceptMatching(states: set<State>, certain: set<Field>)  // an accept rule; what matches has these
    | RejectSome                                        // a filter that passes on what it rejects

  /** `j` is the same entry with these fields set, and whatever others. */
  ghost predicate Enriched(i: Item, j: Item, fields: set<Field>) {
    (forall f :: i.Has(f) ==> j.Has(f)) && (forall f :: f in fields ==> j.Has(f))
  }

  /** An entry can go in as `i` and come out as `j`. */
  ghost predicate Steps(e: Effect, i: Item, j: Item) {
    match e
    case Write(states, fields) =>
      if i.state in states then j.state == i.state && Enriched(i, j, fields) else j == i
    case Classify(states, fields) =>
      if i.state in states then j.state in {i.state, Accepting(i.state)} && Enriched(i, j, fields) else j == i
    case Filter(needed) =>
      if i.state in PASSING && Lacks(i, needed) then j == i.(state := Rejected) else j == i
    case FlipStates(a, b) => j == i.(state := Flip(a, b, i.state))
    case AcceptMatching(states, certain) =>
      j == i || (i.state in states && (forall f :: f in certain ==> i.Has(f)) && j == i.(state := Accepting(i.state)))
    case RejectSome => j == i || (i.state in PASSING && j == i.(state := Rejected))
  }

  ghost predicate Sound(c: Cert, e: Effect, after: Cert) {
    forall i, j :: Describes(c, i) && Steps(e, i, j) ==> Describes(after, j)
  }

  /** Sound, and claiming as much as any sound value could. */
  ghost predicate Best(c: Cert, e: Effect, after: Cert) {
    Sound(c, e, after) && forall other :: Sound(c, e, other) ==> Covers(after, other)
  }

  lemma WriteBest(c: Cert, states: set<State>, fields: set<Field>)
    ensures Best(c, Write(states, fields), c.Added(states, fields))
  {
    var e, after := Write(states, fields), c.Added(states, fields);
    forall other | Sound(c, e, other) ensures Covers(after, other) {
      forall s | s in after.populated ensures s in other.populated && other.At(s) <= after.At(s) + STRUCT {
        BareDescribed(c, s);
        BareHas(s, c.At(s));
        BareHas(s, after.At(s));
        assert Steps(e, Bare(s, c.At(s)), Bare(s, after.At(s)));
        DescribesBare(other, s, after.At(s));
      }
    }
  }

  lemma FlipBest(c: Cert, a: State, b: State)
    ensures Best(c, FlipStates(a, b), c.Swapped(a, b))
  {
    var e, after := FlipStates(a, b), c.Swapped(a, b);
    forall other | Sound(c, e, other) ensures Covers(after, other) {
      forall s | s in after.populated ensures s in other.populated && other.At(s) <= after.At(s) + STRUCT {
        var from := Flip(a, b, s);
        BareDescribed(c, from);
        assert Steps(e, Bare(from, c.At(from)), Bare(s, c.At(from)));
        DescribesBare(other, s, c.At(from));
      }
    }
  }

  /** However the rejected entries go on, narrowing is right about a require filter; the anchor may be any field. */
  lemma FilterSound(c: Cert, needed: seq<Field>, promoted: set<Field>, anchor: Field)
    requires promoted <= SetOf(needed) && promoted != {}
    ensures Sound(c, Filter(needed), c.Narrowed(promoted, anchor))
  {
    forall i, j | Describes(c, i) && Steps(Filter(needed), i, j) ensures Describes(c.Narrowed(promoted, anchor), j) {
      FilterStep(c, needed, promoted, anchor, i, j);
    }
  }

  lemma FilterStep(c: Cert, needed: seq<Field>, promoted: set<Field>, anchor: Field, i: Item, j: Item)
    requires promoted <= SetOf(needed) && promoted != {} && Describes(c, i) && Steps(Filter(needed), i, j)
    ensures Describes(c.Narrowed(promoted, anchor), j)
  {
    hide Describes, Cert.Narrowed;
    if i.state !in PASSING {
      NarrowedLeaves(c, promoted, anchor, i);
    } else if Lacks(i, needed) {
      NarrowedRejects(c, promoted, anchor, i);
    } else {
      forall f | f in promoted ensures i.Has(f) {
        var k :| 0 <= k < |needed| && needed[k] == f;
        assert !IsMissing(i.Get(needed[k]).0);
      }
      NarrowedDescribes(c, promoted, anchor, i);
    }
  }

  lemma NarrowedLeaves(c: Cert, promotes: set<Field>, anchor: Field, i: Item)
    requires Describes(c, i) && i.state !in PASSING
    ensures Describes(c.Narrowed(promotes, anchor), i)
  {
    hide Cert.Effective;
  }

  /** An entry that is rejected keeps what was certain of it. */
  lemma NarrowedRejects(c: Cert, promotes: set<Field>, anchor: Field, i: Item)
    requires Describes(c, i) && i.state in PASSING && promotes != {}
    ensures Describes(c.Narrowed(promotes, anchor), i.(state := Rejected))
  {
    hide Cert.Effective, Cert.Narrowed;
    var j := i.(state := Rejected);
    assert i.state in PASSING * c.populated;
    EffectiveHere(c, i);
    NarrowedAt(c, promotes, anchor);
    assert c.Narrowed(promotes, anchor).At(Rejected) <= c.At(i.state);
    assert forall f :: j.Get(f) == i.Get(f);
  }

  lemma NarrowedDescribes(c: Cert, promotes: set<Field>, anchor: Field, i: Item)
    requires Describes(c, i) && i.state in PASSING && forall f :: f in promotes ==> i.Has(f)
    ensures Describes(c.Narrowed(promotes, anchor), i)
  {
    hide Cert.Effective;
  }

  lemma EffectiveHere(c: Cert, i: Item)
    requires Describes(c, i) && i.state in PASSING
    ensures forall f :: f in c.Effective(PASSING) ==> f in c.At(i.state)
  {
    assert i.state in PASSING * c.populated;
  }

  // --- Where the updates are right only under a condition ---

  /** What the Accepted bucket holds once a node has been let accept undecided entries. */
  function AcceptedBase(c: Cert): set<Field> {
    if Accepted !in c.populated && Undecided in c.populated then c.undecided else c.accepted
  }

  /** Everything the Accepted bucket claims is certain, or set now, wherever accepted entries come from. */
  ghost predicate Classifiable(c: Cert, states: set<State>, fields: set<Field>) {
    forall s :: s in states * c.populated && s != Rejected ==> AcceptedBase(c) <= c.At(s) + fields + STRUCT
  }

  /** A node that accepts some entries is rightly tracked exactly when the Accepted bucket fits every bucket it
    accepts from. */
  lemma ClassifySoundIff(c: Cert, states: set<State>, fields: set<Field>)
    requires Accepted in states && fields != {}
    ensures Sound(c, Classify(states, fields), c.Produced(states, fields)) <==> Classifiable(c, states, fields)
  {
    var e, after := Classify(states, fields), c.Produced(states, fields);
    assert after.accepted == AcceptedBase(c) + fields;
    if Sound(c, e, after) {
      forall s | s in states * c.populated && s != Rejected ensures AcceptedBase(c) <= c.At(s) + fields + STRUCT {
        BareDescribed(c, s);
        BareHas(s, c.At(s));
        BareHas(Accepted, c.At(s) + fields);
        assert Steps(e, Bare(s, c.At(s)), Bare(Accepted, c.At(s) + fields));
        DescribesBare(after, Accepted, c.At(s) + fields);
      }
    }
    if Classifiable(c, states, fields) {
      forall i, j | Describes(c, i) && Steps(e, i, j) ensures Describes(after, j) {
        ClassifyStep(c, states, fields, i, j);
      }
    }
  }

  lemma ClassifyStep(c: Cert, states: set<State>, fields: set<Field>, i: Item, j: Item)
    requires Accepted in states && fields != {} && Classifiable(c, states, fields)
    requires Describes(c, i) && Steps(Classify(states, fields), i, j)
    ensures Describes(c.Produced(states, fields), j)
  {
    var after := c.Produced(states, fields);
    StructHas(j);
    if i.state in states {
      if j.state == Accepted {
        forall f | f in after.accepted ensures j.Has(f) {
          assert f in c.At(i.state) + fields + STRUCT;
        }
      } else {
        assert after.At(j.state) == c.At(i.state) + fields;
      }
    } else {
      assert after.At(j.state) == c.At(i.state);
    }
  }

  /** For the classifiers' own input states: when both are populated, the Accepted bucket may add no more than they
    set. */
  lemma ClassifiableDefault(c: Cert, fields: set<Field>)
    ensures Classifiable(c, PASSING, fields) <==>
      (Accepted in c.populated && Undecided in c.populated ==> c.accepted <= c.undecided + fields + STRUCT)
  {
    if Accepted in c.populated && Undecided in c.populated {
      assert Undecided in PASSING * c.populated && Accepted in PASSING * c.populated;
    }
  }

  /** The Accepted bucket allows for entries from any of these states. */
  ghost predicate Untracked(c: Cert, states: set<State>) {
    forall s :: s in states * c.populated && s !in {Rejected, Accepted} ==>
      Accepted in c.populated && c.accepted <= c.At(s) + STRUCT
  }

  /**
    A node that accepts without setting anything is not tracked at all: right
    exactly when the Accepted bucket already allows for what it accepts.
   */
  lemma UntrackedSoundIff(c: Cert, states: set<State>)
    ensures Sound(c, Classify(states, {}), c.Produced(states, {})) <==> Untracked(c, states)
  {
    var e := Classify(states, {});
    if Sound(c, e, c) {
      forall s | s in states * c.populated && s !in {Rejected, Accepted}
        ensures Accepted in c.populated && c.accepted <= c.At(s) + STRUCT
      {
        BareDescribed(c, s);
        BareHas(s, c.At(s));
        BareHas(Accepted, c.At(s));
        assert Steps(e, Bare(s, c.At(s)), Bare(Accepted, c.At(s)));
        DescribesBare(c, Accepted, c.At(s));
      }
    }
    if Untracked(c, states) {
      forall i, j | Describes(c, i) && Steps(e, i, j) ensures Describes(c, j) {
        StructHas(j);
        if i.state in states && j.state != i.state { assert i.state in states * c.populated; }
      }
    }
  }

  /** What matches is certain of every accepted entry already, and the Accepted bucket of every undecided entry that
    matches. */
  ghost predicate AcceptFits(c: Cert, certain: set<Field>) {
    && (Accepted in c.populated ==> certain <= c.accepted + STRUCT)
    && (Accepted in c.populated && Undecided in c.populated ==> c.accepted <= c.undecided + certain + STRUCT)
  }

  /**
    An accept rule promotes into a bucket that may already hold entries that
    did not match: right exactly when that claims nothing new of those.
   */
  lemma AcceptSoundIff(c: Cert, certain: set<Field>)
    ensures Sound(c, AcceptMatching(PASSING, certain), c.Promoted(certain)) <==> AcceptFits(c, certain)
  {
    var e, after := AcceptMatching(PASSING, certain), c.Promoted(certain);
    if Sound(c, e, after) {
      if Accepted in c.populated {
        BareDescribed(c, Accepted);
        assert Steps(e, Bare(Accepted, c.accepted), Bare(Accepted, c.accepted));
        DescribesBare(after, Accepted, c.accepted);
        if Undecided in c.populated {
          var from := c.undecided + certain;
          BareHas(Undecided, from);
          assert Describes(c, Bare(Undecided, from));
          assert Steps(e, Bare(Undecided, from), Bare(Accepted, from));
          DescribesBare(after, Accepted, from);
        }
      }
    }
    if AcceptFits(c, certain) {
      forall i, j | Describes(c, i) && Steps(e, i, j) ensures Describes(after, j) {
        AcceptStep(c, certain, i, j);
      }
    }
  }

  lemma AcceptStep(c: Cert, certain: set<Field>, i: Item, j: Item)
    requires AcceptFits(c, certain) && Describes(c, i) && Steps(AcceptMatching(PASSING, certain), i, j)
    ensures Describes(c.Promoted(certain), j)
  {
    StructHas(j);
    if j.state == Accepted {
      forall f | f in c.Promoted(certain).accepted ensures j.Has(f) {
        assert f in c.At(i.state) + certain + STRUCT;
        assert i.state == Accepted ==> f in c.accepted + STRUCT;
      }
    }
  }

  /** A filter that passes on what it rejects, and is not tracked: right exactly when the Rejected bucket already
    allows for it. */
  lemma RejectSoundIff(c: Cert, anchor: Field)
    ensures Sound(c, RejectSome, c.Narrowed({}, anchor)) <==>
      forall s :: s in PASSING * c.populated ==> Rejected in c.populated && c.rejected <= c.At(s) + STRUCT
  {
    if Sound(c, RejectSome, c) {
      forall s | s in PASSING * c.populated ensures Rejected in c.populated && c.rejected <= c.At(s) + STRUCT {
        BareDescribed(c, s);
        assert Steps(RejectSome, Bare(s, c.At(s)), Bare(Rejected, c.At(s)));
        DescribesBare(c, Rejected, c.At(s));
      }
    }
    if forall s :: s in PASSING * c.populated ==> Rejected in c.populated && c.rejected <= c.At(s) + STRUCT {
      forall i, j | Describes(c, i) && Steps(RejectSome, i, j) ensures Describes(c, j) {
        StructHas(j);
        if j != i { assert i.state in PASSING * c.populated; }
      }
    }
  }
}
