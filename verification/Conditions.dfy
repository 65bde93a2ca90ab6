/**
  Condition nodes: what the plugin (plugins/processor/filter/condition/condition.go)
  decides of an entry, and when the field analysis of its rules
  (internal/dag/validate.go) is right about that.
 */
module Conditions {
  import opened Entries
  import opened StateCert
  import opened CertMeaning
  import opened FieldFlow

  // --- What the rules decide ---

  predicate HasAll(i: Item, fields: seq<Field>) { forall f :: f in fields ==> i.Has(f) }

  /** The entry, accepted; a rejection is never overridden. */
  function Taken(i: Item): Item { i.(state := Accepting(i.state)) }

  /**
    An entry `i` can leave the rules as `j`: the first rule that matches
    decides, a rule's `reject` is tried before its `accept`, and what is
    rejected does not leave. An expression tells of an entry only what is
    inferred from it.
   */
  ghost predicate Decides(rules: seq<Rule>, i: Item, j: Item) {
    if rules == [] then j == i
    else match rules[0]
      case AcceptRule(narrows) => (HasAll(i, narrows) && j == Taken(i)) || Decides(rules[1..], i, j)
      case RejectRule(_, promotes) => HasAll(i, promotes) && Decides(rules[1..], i, j)
      case BothRule(narrows, _, promotes) =>
        HasAll(i, promotes) && ((HasAll(i, narrows) && j == Taken(i)) || Decides(rules[1..], i, j))
  }

  // --- When the analysis fits ---

  predicate Accepts(r: Rule) { !r.RejectRule? }

  /** An accept rule claims nothing new of what may be accepted already. */
  ghost predicate AcceptRuleFits(narrows: seq<Field>, into: Flow) {
    AcceptFits(into.cert, Fresh(narrows, into.reach, Reference(into.cert)))
  }

  /** Nor does a reject rule, of what an earlier rule has accepted and this one is not asked about. */
  ghost predicate RejectRuleFits(removes: seq<Field>, promotes: seq<Field>, into: Flow) {
    var left := Without(into, SetOf(removes) * into.reach);
    Accepted in left.cert.populated ==> Fresh(promotes, left.reach, Reference(left.cert)) <= left.cert.accepted + STRUCT
  }

  ghost predicate RuleFits(r: Rule, into: Flow, settled: bool) {
    match r
    case AcceptRule(narrows) => AcceptRuleFits(narrows, into)
    case RejectRule(removes, promotes) => settled ==> RejectRuleFits(removes, promotes, into)
    case BothRule(narrows, removes, promotes) =>
      && AcceptRuleFits(narrows, into)
      && (settled ==> RejectRuleFits(removes, promotes, AfterAccept(narrows, into)))
  }

  /** `settled`: an earlier rule may have accepted entries. */
  ghost predicate RulesFit(rules: seq<Rule>, into: Flow, settled: bool) {
    rules != [] ==>
      RuleFits(rules[0], into, settled) && RulesFit(rules[1..], AfterRule(rules[0], into), settled || Accepts(rules[0]))
  }

  /** Rules that only reject always fit. */
  lemma {:induction false} RejectsFit(rules: seq<Rule>, into: Flow)
    requires forall r :: r in rules ==> r.RejectRule?
    ensures RulesFit(rules, into, false)
  {
    hide AfterRule;
    if rules != [] {
      assert rules[0] in rules;
      RejectsFit(rules[1..], AfterRule(rules[0], into));
    }
  }

  /** So does a single rule, where nothing has been accepted yet. */
  lemma FirstAcceptFits(r: Rule, into: Flow)
    requires Accepted !in into.cert.populated
    ensures RulesFit([r], into, false)
  {
    hide AfterRule;
    assert RulesFit([r][1..], AfterRule(r, into), Accepts(r));
  }

  // --- One rule ---

  /** An entry a rule did not match, or matched, is described by what the rule leaves. */
  lemma AcceptDescribes(narrows: seq<Field>, into: Flow, i: Item)
    requires AcceptRuleFits(narrows, into) && Describes(into.cert, i)
    ensures Describes(AfterAccept(narrows, into).cert, i)
    ensures i.state in PASSING && HasAll(i, narrows) ==> Describes(AfterAccept(narrows, into).cert, Taken(i))
  {
    hide Describes, Cert.Promoted, AcceptFits;
    var added := Fresh(narrows, into.reach, Reference(into.cert));
    assert Steps(AcceptMatching(PASSING, added), i, i);
    AcceptStep(into.cert, added, i, i);
    if i.state in PASSING && HasAll(i, narrows) {
      assert Steps(AcceptMatching(PASSING, added), i, Taken(i));
      AcceptStep(into.cert, added, i, Taken(i));
    }
  }

  lemma RejectDescribes(removes: seq<Field>, promotes: seq<Field>, into: Flow, i: Item)
    requires Describes(into.cert, i) && i.state in PASSING
    requires HasAll(i, promotes) || (i.state == Accepted && RejectRuleFits(removes, promotes, into))
    ensures Describes(AfterReject(removes, promotes, into).cert, i)
  {
    hide Cert.Effective, Least;
    var left := Without(into, SetOf(removes) * into.reach);
    assert Describes(left.cert, i);
    StructHas(i);
    var added := Fresh(promotes, left.reach, Reference(left.cert));
    assert forall f :: f in added ==> i.Has(f);
    NarrowedDescribes(left.cert, added, Least(promotes, added), i);
  }

  /** A reject rule is right about what was accepted before it exactly when it claims nothing new of it. */
  lemma RejectAcceptedIff(c: Cert, promotes: set<Field>, anchor: Field)
    ensures (forall i :: Describes(c, i) && i.state == Accepted ==> Describes(c.Narrowed(promotes, anchor), i))
      <==> (Accepted in c.populated ==> promotes <= c.accepted + STRUCT)
  {
    hide Cert.Effective;
    if Accepted in c.populated {
      if promotes <= c.accepted + STRUCT {
        forall i | Describes(c, i) && i.state == Accepted ensures Describes(c.Narrowed(promotes, anchor), i) {
          StructHas(i);
          NarrowedDescribes(c, promotes, anchor, i);
        }
      } else {
        BareDescribed(c, Accepted);
        assert promotes != {} && Accepted in PASSING * c.populated;
        assert c.Narrowed(promotes, anchor).At(Accepted) == c.accepted + promotes;
        assert Bare(Accepted, c.accepted).state == Accepted;
        if Describes(c.Narrowed(promotes, anchor), Bare(Accepted, c.accepted)) {
          DescribesBare(c.Narrowed(promotes, anchor), Accepted, c.accepted);
        }
      }
    }
  }

  /** The entries a rule leaves to the ones after it. */
  lemma RuleDescribes(r: Rule, into: Flow, i: Item, settled: bool)
    requires RuleFits(r, into, settled) && Describes(into.cert, i) && i.state in PASSING
    requires HasAll(i, Promotes(r)) || (settled && i.state == Accepted)
    ensures Describes(AfterRule(r, into).cert, i)
    ensures Accepts(r) && HasAll(i, Narrows(r)) && HasAll(i, Promotes(r)) ==>
      Describes(AfterRule(r, into).cert, Taken(i))
  {
    hide AfterAccept, AfterReject, Describes, AcceptRuleFits, RejectRuleFits;
    match r {
      case AcceptRule(narrows) => AcceptDescribes(narrows, into, i);
      case RejectRule(removes, promotes) => RejectDescribes(removes, promotes, into, i);
      case BothRule(narrows, removes, promotes) =>
        AcceptDescribes(narrows, into, i);
        RejectDescribes(removes, promotes, AfterAccept(narrows, into), i);
        if HasAll(i, narrows) && HasAll(i, promotes) {
          SameFields(i, promotes);
          RejectDescribes(removes, promotes, AfterAccept(narrows, into), Taken(i));
        }
    }
  }

  lemma SameFields(i: Item, fields: seq<Field>)
    ensures HasAll(Taken(i), fields) == HasAll(i, fields)
  {
    assert forall f :: Taken(i).Get(f) == i.Get(f);
  }

  function Narrows(r: Rule): seq<Field> { if r.RejectRule? then [] else r.narrows }

  function Promotes(r: Rule): seq<Field> { if r.AcceptRule? then [] else r.promotes }

  // --- All of them ---

  lemma {:induction false} AfterRulesFront(rules: seq<Rule>, into: Flow)
    requires rules != []
    ensures AfterRules(rules, into) == AfterRules(rules[1..], AfterRule(rules[0], into))
  {
    hide AfterRule;
    var n := |rules| - 1;
    if n == 0 {
      assert rules[..n] == [] && rules[1..] == [];
    } else {
      AfterRulesFront(rules[..n], into);
      assert rules[..n][1..] == rules[1..][..n - 1];
      assert rules[..n][0] == rules[0] && rules[1..][n - 1] == rules[n];
    }
  }

  lemma {:induction false} SettledDescribes(rules: seq<Rule>, into: Flow, j: Item)
    requires RulesFit(rules, into, true) && Describes(into.cert, j) && j.state == Accepted
    ensures Describes(AfterRules(rules, into).cert, j)
  {
    hide AfterRule, Describes, RuleFits;
    if rules != [] {
      RuleDescribes(rules[0], into, j, true);
      AfterRulesFront(rules, into);
      SettledDescribes(rules[1..], AfterRule(rules[0], into), j);
    }
  }

  /** Where the rules fit, the analysis is right about whatever they decide. */
  lemma {:induction false} RulesSound(rules: seq<Rule>, into: Flow, settled: bool, i: Item, j: Item)
    requires RulesFit(rules, into, settled) && Describes(into.cert, i) && i.state in PASSING && Decides(rules, i, j)
    ensures Describes(AfterRules(rules, into).cert, j)
  {
    hide AfterRule, Describes, RuleFits;
    if rules != [] {
      var r, rest, next := rules[0], rules[1..], AfterRule(rules[0], into);
      AfterRulesFront(rules, into);
      RuleDescribes(r, into, i, settled);
      if Decides(rest, i, j) && HasAll(i, Promotes(r)) {
        RulesSound(rest, next, settled || Accepts(r), i, j);
      } else {
        assert Accepts(r) && HasAll(i, Narrows(r)) && HasAll(i, Promotes(r)) && j == Taken(i);
        SettledDescribes(rest, next, j);
      }
    }
  }

  // --- And exactly when it is right ---

  ghost predicate HasSet(i: Item, fields: set<Field>) { forall f :: f in fields ==> i.Has(f) }

  /** What is known of an entry the first k rules have not rejected. */
  function Gained(rules: seq<Rule>, k: nat): set<Field>
    requires k <= |rules|
  {
    if k == 0 then {} else SetOf(Promotes(rules[0])) + Gained(rules[1..], k - 1)
  }

  /** What is known of an entry that rule k accepts. */
  function GainedBy(rules: seq<Rule>, k: nat): set<Field>
    requires k < |rules|
  {
    Gained(rules, k + 1) + SetOf(Narrows(rules[k]))
  }

  ghost predicate AcceptedAt(rules: seq<Rule>, i: Item, k: int) {
    0 <= k < |rules| && Accepts(rules[k]) && HasSet(i, GainedBy(rules, k))
  }

  /** The ways through the rules: past all of them, or accepted by one. */
  lemma {:induction false} DecidesIff(rules: seq<Rule>, i: Item, j: Item)
    ensures Decides(rules, i, j) <==>
      (HasSet(i, Gained(rules, |rules|)) && j == i) || (j == Taken(i) && exists k :: AcceptedAt(rules, i, k))
  {
    if rules != [] {
      var r, rest := rules[0], rules[1..];
      DecidesIff(rest, i, j);
      assert HasSet(i, Gained(rules, |rules|)) <==> HasAll(i, Promotes(r)) && HasSet(i, Gained(rest, |rest|));
      forall k | 0 < k < |rules|
        ensures AcceptedAt(rules, i, k) <==> HasAll(i, Promotes(r)) && AcceptedAt(rest, i, k - 1) {
        LaterRule(rules, i, k);
      }
      assert Gained(rest, 0) == {} && GainedBy(rules, 0) == SetOf(Promotes(r)) + Gained(rest, 0) + SetOf(Narrows(r));
      assert AcceptedAt(rules, i, 0) <==> Accepts(r) && HasAll(i, Promotes(r)) && HasAll(i, Narrows(r));
      if k :| AcceptedAt(rest, i, k) && HasAll(i, Promotes(r)) { assert AcceptedAt(rules, i, k + 1); }
    }
  }

  lemma LaterRule(rules: seq<Rule>, i: Item, k: nat)
    requires 0 < k < |rules|
    ensures AcceptedAt(rules, i, k) <==> HasAll(i, Promotes(rules[0])) && AcceptedAt(rules[1..], i, k - 1)
  {
    assert GainedBy(rules, k) == SetOf(Promotes(rules[0])) + GainedBy(rules[1..], k - 1);
  }

  /** What an analysis may claim of entries in state t that come of those in s with these fields besides. */
  ghost predicate Allows(after: Cert, c: Cert, s: State, t: State, gained: set<Field>) {
    t in after.populated && after.At(t) <= c.At(s) + gained + STRUCT
  }

  lemma AllowsIff(after: Cert, c: Cert, s: State, t: State, gained: set<Field>)
    requires s in c.populated
    ensures Allows(after, c, s, t, gained) <==>
      forall i :: Describes(c, i) && i.state == s && HasSet(i, gained) ==> Describes(after, i.(state := t))
  {
    if Allows(after, c, s, t, gained) {
      forall i | Describes(c, i) && i.state == s && HasSet(i, gained) ensures Describes(after, i.(state := t)) {
        StructHas(i);
        assert forall f :: i.(state := t).Get(f) == i.Get(f);
      }
    }
    if forall i :: Describes(c, i) && i.state == s && HasSet(i, gained) ==> Describes(after, i.(state := t)) {
      var i := Bare(s, c.At(s) + gained);
      BareHas(s, c.At(s) + gained);
      assert Describes(c, i) && i.(state := t) == Bare(t, c.At(s) + gained);
      DescribesBare(after, t, c.At(s) + gained);
    }
  }

  /** The analysis claims no more of any way through the rules than is known along it. */
  ghost predicate RulesExact(rules: seq<Rule>, into: Flow) {
    var c, after := into.cert, AfterRules(rules, into).cert;
    forall s :: s in PASSING * c.populated ==>
      && Allows(after, c, s, s, Gained(rules, |rules|))
      && forall k :: 0 <= k < |rules| && Accepts(rules[k]) ==> Allows(after, c, s, Accepted, GainedBy(rules, k))
  }

  ghost predicate RulesRight(rules: seq<Rule>, into: Flow) {
    forall i, j :: Describes(into.cert, i) && i.state in PASSING && Decides(rules, i, j) ==>
      Describes(AfterRules(rules, into).cert, j)
  }

  /** The analysis of a list of rules is right about what they decide if and only if it is exact in this sense. */
  lemma RulesSoundIff(rules: seq<Rule>, into: Flow)
    ensures RulesRight(rules, into) <==> RulesExact(rules, into)
  {
    hide Describes, Decides, AfterRules, Allows, HasSet, Gained, GainedBy;
    var c, after := into.cert, AfterRules(rules, into).cert;
    if RulesExact(rules, into) {
      forall i, j | Describes(c, i) && i.state in PASSING && Decides(rules, i, j) ensures Describes(after, j) {
        ExactDescribes(rules, into, i, j);
      }
    }
    if RulesRight(rules, into) {
      forall s | s in PASSING * c.populated
        ensures Allows(after, c, s, s, Gained(rules, |rules|))
        ensures forall k :: 0 <= k < |rules| && Accepts(rules[k]) ==> Allows(after, c, s, Accepted, GainedBy(rules, k))
      {
        RightAllows(rules, into, s);
      }
    }
  }

  lemma ExactDescribes(rules: seq<Rule>, into: Flow, i: Item, j: Item)
    requires RulesExact(rules, into) && Describes(into.cert, i) && i.state in PASSING && Decides(rules, i, j)
    ensures Describes(AfterRules(rules, into).cert, j)
  {
    hide Decides, AfterRules, Allows, HasSet, Gained;
    var c, after := into.cert, AfterRules(rules, into).cert;
    assert i.state in PASSING * c.populated;
    DecidesIff(rules, i, j);
    if HasSet(i, Gained(rules, |rules|)) && j == i {
      AllowsIff(after, c, i.state, i.state, Gained(rules, |rules|));
      assert i.(state := i.state) == i;
    } else {
      var k :| AcceptedAt(rules, i, k);
      AllowsIff(after, c, i.state, Accepted, GainedBy(rules, k));
    }
  }

  lemma RightAllows(rules: seq<Rule>, into: Flow, s: State)
    requires RulesRight(rules, into) && s in PASSING * into.cert.populated
    ensures var c, after := into.cert, AfterRules(rules, into).cert;
      && Allows(after, c, s, s, Gained(rules, |rules|))
      && forall k :: 0 <= k < |rules| && Accepts(rules[k]) ==> Allows(after, c, s, Accepted, GainedBy(rules, k))
  {
    hide Describes, Decides, AfterRules, Allows, HasSet, Gained, GainedBy;
    var c, after := into.cert, AfterRules(rules, into).cert;
    forall i | Describes(c, i) && i.state == s && HasSet(i, Gained(rules, |rules|))
      ensures Describes(after, i.(state := s)) {
      DecidesIff(rules, i, i);
      assert i.(state := s) == i;
    }
    AllowsIff(after, c, s, s, Gained(rules, |rules|));
    forall k | 0 <= k < |rules| && Accepts(rules[k]) ensures Allows(after, c, s, Accepted, GainedBy(rules, k)) {
      forall i | Describes(c, i) && i.state == s && HasSet(i, GainedBy(rules, k))
        ensures Describes(after, i.(state := Accepted)) {
        assert AcceptedAt(rules, i, k);
        DecidesIff(rules, i, Taken(i));
        assert Taken(i) == i.(state := Accepted);
      }
      AllowsIff(after, c, s, Accepted, GainedBy(rules, k));
    }
  }

  /** Rules that fit step by step are exact. */
  lemma FitsExact(rules: seq<Rule>, into: Flow)
    requires RulesFit(rules, into, false)
    ensures RulesExact(rules, into)
  {
    hide Describes, Decides, AfterRules, RulesFit, RulesExact;
    forall i, j | Describes(into.cert, i) && i.state in PASSING && Decides(rules, i, j)
      ensures Describes(AfterRules(rules, into).cert, j)
    {
      RulesSound(rules, into, false, i, j);
    }
    RulesSoundIff(rules, into);
  }

  /** Entries outside the passing states are not asked about. */
  lemma {:induction false} OthersDescribed(rules: seq<Rule>, into: Flow, i: Item)
    requires Describes(into.cert, i) && i.state !in PASSING
    ensures Describes(AfterRules(rules, into).cert, i)
  {
    hide AfterRule, Describes;
    if rules != [] {
      AfterRulesFront(rules, into);
      OtherDescribed(rules[0], into, i);
      OthersDescribed(rules[1..], AfterRule(rules[0], into), i);
    }
  }

  lemma OtherDescribed(r: Rule, into: Flow, i: Item)
    requires Describes(into.cert, i) && i.state !in PASSING
    ensures Describes(AfterRule(r, into).cert, i)
  {
    hide Cert.Effective, Least;
  }

  /** A reject rule after an accept rule is taken to have been asked of what was accepted, though it was not. */
  lemma AcceptedBeforeRejected()
    ensures exists rules, into: Flow, i, j ::
      Describes(into.cert, i) && i.state in PASSING && Decides(rules, i, j) &&
        !Describes(AfterRules(rules, into).cert, j)
  {
    hide AfterAccept, AfterReject;
    var rules, into := [AcceptRule([]), RejectRule([], ["x"])], Flow({"x"}, Cert({}, {}, {}, {}, {Undecided}));
    var i := Bare(Undecided, {});
    BareHas(Undecided, {});
    assert Taken(i) == Bare(Accepted, {});
    BareHas(Accepted, {});
    AfterRulesFront(rules, into);
    AfterRulesFront(rules[1..], AfterRule(rules[0], into));
    assert rules[1..][0] == rules[1] && rules[1..][1..] == [];
    AcceptedUnasked();
    RejectedUnasked();
    assert AfterRules(rules, into) == AfterReject([], ["x"], AfterAccept([], into));
    assert "x" in AfterRules(rules, into).cert.At(Accepted) && !Taken(i).Has("x");
    assert Describes(into.cert, i) && Decides(rules, i, Taken(i)) && !Describes(AfterRules(rules, into).cert, Taken(i));
  }

  lemma AcceptedUnasked()
    ensures AfterAccept([], Flow({"x"}, Cert({}, {}, {}, {}, {Undecided}))) ==
      Flow({"x"}, Cert({}, {}, {}, {}, {Undecided, Accepted}))
  {
  }

  lemma RejectedUnasked()
    ensures "x" in AfterReject([], ["x"], Flow({"x"}, Cert({}, {}, {}, {}, {Undecided, Accepted}))).cert.accepted
  {
    hide Cert.Effective;
    var into := Flow({"x"}, Cert({}, {}, {}, {}, {Undecided, Accepted}));
    assert SetOf([]) * into.reach == {};
    assert Without(into, {}) == into;
    var added := Fresh(["x"], into.reach, Reference(into.cert));
    assert "x" in added && Accepted in PASSING * into.cert.populated;
    assert "x" in into.cert.Narrowed(added, Least(["x"], added)).At(Accepted);
  }
}
