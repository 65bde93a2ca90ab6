/** The field sets the visual editor shows (internal/dag/fieldsets.go). */
module NodeFields {
  import opened Graph
  import opened Entries
  import opened Dataflow
  import opened StateCert
  import opened FieldFlow
  import opened Validate
  import Layers

  datatype NodeFieldSets = NodeFieldSets(certain: set<Field>, reachable: set<Field>)

  /** A node without a registered plugin is shown as a default processor. */
  function Shown(d: Descriptor): Descriptor { if d.registered then d else d.(role := Processor, inputStates := {}) }

  function FieldsAt(d: Descriptor, into: Flow): NodeFieldSets { NodeFieldSets(CertainFor(Shown(d), into), into.reach) }

  ghost predicate FlowSoFar(g: Dag, uses: map<NodeID, Descriptor>, flows: map<NodeID, Flow>, done: set<NodeID>) {
    && done <= g.ups.Keys <= uses.Keys && flows.Keys == done
    && (forall n :: n in flows ==> flows[n] == EditorLeaving(uses[n], Entering(uses[n], g.ups[n], flows)))
    && forall n, u :: n in done && u in g.ups[n] ==> u in done
  }

  ghost predicate Shows(g: Dag, uses: map<NodeID, Descriptor>, flows: map<NodeID, Flow>,
                        result: map<NodeID, NodeFieldSets>) {
    forall n :: n in result ==>
      n in g.ups && n in uses && result[n] == FieldsAt(uses[n], Entering(uses[n], g.ups[n], flows))
  }

  ghost predicate Progress(g: Dag, uses: map<NodeID, Descriptor>, flows: map<NodeID, Flow>, done: set<NodeID>,
                           reachable: map<NodeID, set<Field>>, certain: map<NodeID, StateCertainty>,
                           result: map<NodeID, NodeFieldSets>)
    reads set id | id in certain :: certain[id]
  {
    FlowSoFar(g, uses, flows, done) && Stored(reachable, certain, flows) && result.Keys == done &&
      Shows(g, uses, flows, result)
  }

  lemma ProgressStart(g: Dag, uses: map<NodeID, Descriptor>)
    requires g.ups.Keys <= uses.Keys
    ensures Progress(g, uses, map[], {}, map[], map[], map[])
  {
  }

  lemma ProgressMore(g: Dag, uses: map<NodeID, Descriptor>, flows: map<NodeID, Flow>, done: set<NodeID>,
                     reachable: map<NodeID, set<Field>>, certain: map<NodeID, StateCertainty>,
                     result: map<NodeID, NodeFieldSets>,
                     n: NodeID, reach: set<Field>, cert: StateCertainty)
    requires Progress(g, uses, flows, done, reachable, certain, result)
    requires n in g.ups && n in uses && n !in done && (forall u :: u in g.ups[n] ==> u in done)
    requires cert.Valid() && cert.slots &&
      Flow(reach, cert.View()) == EditorLeaving(uses[n], Entering(uses[n], g.ups[n], flows))
    ensures Progress(g, uses, flows[n := EditorLeaving(uses[n], Entering(uses[n], g.ups[n], flows))], done + {n},
                     reachable[n := reach], certain[n := cert],
                       result[n := FieldsAt(uses[n], Entering(uses[n], g.ups[n], flows))])
  {
    hide EditorLeaving, Inherited, AfterPort, FieldsAt;
    hide StateCertainty.View, StateCertainty.Valid, Stored;
    StoredMore(reachable, certain, flows, n, reach, cert);
    var f := EditorLeaving(uses[n], Entering(uses[n], g.ups[n], flows));
    forall m | m in done + {n}
      ensures Entering(uses[m], g.ups[m], flows[n := f]) == Entering(uses[m], g.ups[m], flows) {
      InheritedStable(g.ups[m], flows, n, f);
    }
  }

  lemma ProgressEnd(g: Dag, uses: map<NodeID, Descriptor>, flows: map<NodeID, Flow>, done: set<NodeID>,
                    reachable: map<NodeID, set<Field>>, certain: map<NodeID, StateCertainty>,
                    result: map<NodeID, NodeFieldSets>)
    requires Progress(g, uses, flows, done, reachable, certain, result)
    ensures Stored(reachable, certain, flows) && certain.Keys == done && g.ups.Keys <= uses.Keys
    ensures done == g.ups.Keys ==>
      IsEditorFlow(g, uses, flows) && result.Keys == g.ups.Keys && Shows(g, uses, flows, result)
  {
    hide EditorLeaving, Inherited, AfterPort, FieldsAt;
  }

  /** The body of the editor's loop. */
  method FieldsOfNode(d: Descriptor, ups: seq<NodeID>, reachable: map<NodeID, set<Field>>,
                      certain: map<NodeID, StateCertainty>, ghost flows: map<NodeID, Flow>)
    returns (shown: NodeFieldSets, reach: set<Field>, cert: StateCertainty)
    requires Stored(reachable, certain, flows) && forall u :: u in ups ==> u in certain
    ensures shown == FieldsAt(d, Entering(d, ups, flows))
    ensures fresh(cert) && cert.Valid() && cert.slots &&
      Flow(reach, cert.View()) == EditorLeaving(d, Entering(d, ups, flows))
  {
    hide Inherited, AfterPort, CertainFor, AfterProduces, AfterKind, AfterSubs;
    reach, cert := InheritReachAndCert(ups, reachable, certain, flows);
    var crashed;
    crashed, reach := ApplyPort(d.port, reach, cert);
    ghost var into := Flow(reach, cert.View());
    var fields := CertainFields(Shown(d), cert, into);
    shown := NodeFieldSets(fields, reach);
    if d.registered {
      crashed, reach := ApplyProduces(d, reach, cert);
      crashed, reach := ApplySubs(d, reach, cert);
    }
    crashed, reach := ApplyKind(d, reach, cert);
    assert !crashed;
  }

  /** ComputeNodeFields; `flows` are the field sets it has built. There is no result for a graph Layers refuses. */
  method ComputeNodeFields(g: Graph, uses: map<NodeID, Descriptor>)
    returns (layered: bool, result: map<NodeID, NodeFieldSets>, ghost flows: map<NodeID, Flow>)
    requires g.Valid() && g.nodes.Keys <= uses.Keys
    ensures layered <==> forall n :: n in g.nodes ==> Distinct(g.nodes[n].upstreams)
    ensures layered ==>
      IsEditorFlow(g.View(), uses, flows) && result.Keys == g.nodes.Keys && Shows(g.View(), uses, flows, result)
  {
    hide *;
    layered, result, flows := false, map[], map[];
    ghost var d := g.View();
    Layers.ViewNodes(g);
    var layering := Layers.Layers(g);
    if layering.Cycle? { return; }
    layered := true;
    var layers := layering.layers;
    var reachable: map<NodeID, set<Field>>, certain: map<NodeID, StateCertainty> := map[], map[];
    ghost var done: set<NodeID> := {};
    Layers.VisitAll(d, layers, {});
    ProgressStart(d, uses);
    for k := 0 to |layers|
      invariant Layers.Visited(d, layers, k, 0, done) && Progress(d, uses, flows, done, reachable, certain, result)
    {
      for j := 0 to |layers[k]|
        invariant Layers.Visited(d, layers, k, j, done) && Progress(d, uses, flows, done, reachable, certain, result)
      {
        var n := layers[k][j];
        Layers.VisitNext(d, layers, k, j, done);
        ProgressEnd(d, uses, flows, done, reachable, certain, result);
        var shown, reach, cert := FieldsOfNode(uses[n], g.nodes[n].upstreams, reachable, certain, flows);
        ProgressMore(d, uses, flows, done, reachable, certain, result, n, reach, cert);
        result, reachable, certain := result[n := shown], reachable[n := reach], certain[n := cert];
        flows := flows[n := EditorLeaving(uses[n], Entering(uses[n], d.ups[n], flows))];
        done := done + {n};
      }
      Layers.VisitLayer(d, layers, k, done);
    }
    Layers.VisitAll(d, layers, done);
    ProgressEnd(d, uses, flows, done, reachable, certain, result);
  }

  // --- What the two walks promise each other, and the editor its reader ---

  /** What the editor shows of a node is what the validator checks it against. */
  lemma ShowsWhatIsChecked(g: Dag, uses: map<NodeID, Descriptor>, checked: map<NodeID, Flow>,
                           flows: map<NodeID, Flow>, result: map<NodeID, NodeFieldSets>)
    requires Built(g) && IsFlow(g, uses, checked) && IsEditorFlow(g, uses, flows) && result.Keys == g.ups.Keys &&
      Shows(g, uses, flows, result)
    requires forall m :: m in g.ups ==>
      m in uses && uses[m].registered && (uses[m].kind.Ordinary? || uses[m].subs == [])
    ensures forall n :: n in result ==>
      result[n] == NodeFieldSets(CertainFor(uses[n], Entering(uses[n], g.ups[n], checked)),
        Entering(uses[n], g.ups[n], checked).reach)
  {
    hide IsFlow, IsEditorFlow, Built, CertainFor, Inherited, AfterPort;
    forall n | n in result
      ensures result[n] ==
        NodeFieldSets(CertainFor(uses[n], Entering(uses[n], g.ups[n], checked)),
          Entering(uses[n], g.ups[n], checked).reach)
    {
      EditorAgrees(g, uses, checked, flows, n);
    }
  }

  /** Only reachable fields are certain, apart from these. */
  ghost predicate CertainWithin(f: Flow, apart: set<Field>) { forall s: State :: f.cert.At(s) <= f.reach + apart }

  ghost predicate CertainReachable(f: Flow) { CertainWithin(f, {}) }

  lemma {:induction false} InheritedReachable(ups: seq<NodeID>, flows: map<NodeID, Flow>)
    requires forall u :: u in ups ==> CertainReachable(FlowAt(flows, u))
    ensures CertainReachable(Inherited(ups, flows))
  {
    if |ups| > 1 {
      var n := |ups| - 1;
      InheritedReachable(ups[..n], flows);
      var rest, last := Inherited(ups[..n], flows), FlowAt(flows, ups[n]);
      assert ups[n] in ups;
      forall s: State ensures Inherited(ups, flows).cert.At(s) <= Inherited(ups, flows).reach {
        assert Inherited(ups, flows).cert.At(s) == rest.cert.Meeting(last.cert, s);
        assert rest.cert.At(s) <= rest.reach + {} && last.cert.At(s) <= last.reach + {};
      }
    } else if |ups| == 1 {
      assert ups[0] in ups;
    }
  }

  lemma ProducesReachable(d: Descriptor, into: Flow, apart: set<Field>)
    requires CertainWithin(into, apart)
    ensures CertainWithin(AfterProduces(d, into), apart)
  {
    hide Cert.Added, Cert.Marked;
    var states, fields := ProducingStates(d), SetOf(d.produces);
    forall s: State ensures into.cert.Produced(states, fields).At(s) <= into.reach + apart + fields {
      assert into.cert.At(Undecided) <= into.reach + apart && into.cert.At(s) <= into.reach + apart;
    }
    forall s: State
      ensures into.cert.Marked({Undecided}).Added({Undecided}, fields).At(s) <= into.reach + apart + fields {
      assert into.cert.At(s) <= into.reach + apart;
    }
  }

  lemma {:induction false} SubFieldsReachable(subs: seq<SubPlugin>)
    ensures SubFields(subs) <= SubReach(subs)
  {
    if subs != [] {
      SubFieldsReachable(subs[..|subs| - 1]);
    }
  }

  lemma SubsReachable(d: Descriptor, into: Flow, apart: set<Field>)
    requires CertainWithin(into, apart)
    ensures CertainWithin(AfterSubs(d, into), apart)
  {
    SubFieldsReachable(d.subs);
  }

  /** Narrowing promotes only fields that are reachable, and certain fields become certain elsewhere at most. */
  lemma NarrowedReachable(c: Cert, promotes: set<Field>, anchor: Field, within: set<Field>)
    requires promotes <= within && forall s: State :: c.At(s) <= within
    ensures forall s: State :: c.Narrowed(promotes, anchor).At(s) <= within
  {
    forall f | f in c.Effective(PASSING) ensures f in within {
      assert f in c.At(Undecided) || f in c.At(Accepted) || f in c.At(Rejected) || f in c.At(Failed);
    }
  }

  lemma PromotedReachable(c: Cert, promotes: set<Field>, within: set<Field>)
    requires promotes <= within && forall s: State :: c.At(s) <= within
    ensures forall s: State :: c.Promoted(promotes).At(s) <= within
  {
    assert c.undecided == c.At(Undecided) && c.accepted == c.At(Accepted);
  }

  /** What a removal takes out of reach may stay certain of rejected and failed entries. */
  lemma WithoutReachable(into: Flow, gone: set<Field>, apart: set<Field>)
    requires CertainWithin(into, apart)
    ensures CertainWithin(Without(into, gone), apart + gone)
    ensures Without(into, gone).cert.accepted <= Without(into, gone).reach + apart
    ensures Without(into, gone).cert.undecided <= Without(into, gone).reach + apart
  {
    assert into.cert.At(Accepted) <= into.reach + apart && into.cert.At(Undecided) <= into.reach + apart;
    forall s: State ensures Without(into, gone).cert.At(s) <= into.cert.At(s) {
    }
  }

  lemma PortReachable(port: Port, into: Flow)
    requires CertainReachable(into)
    ensures CertainWithin(AfterPort(port, into), SetOf(port.removes))
    ensures AfterPort(port, into).cert.accepted <= AfterPort(port, into).reach
    ensures AfterPort(port, into).cert.undecided <= AfterPort(port, into).reach
  {
    hide Cert.Narrowed, Without;
    var added := Fresh(port.narrows, into.reach, into.cert.accepted);
    var narrowed := into.(cert := into.cert.Narrowed(added, ""));
    assert forall s: State :: into.cert.At(s) <= into.reach + {};
    NarrowedReachable(into.cert, added, "", into.reach);
    WithoutReachable(narrowed, SetOf(port.removes) * into.reach, {});
  }

  lemma {:induction false} RulesReachable(rules: seq<Rule>, into: Flow, apart: set<Field>)
    requires CertainWithin(into, apart) && forall r :: r in rules ==> Takes(r) == []
    ensures AfterRules(rules, into).reach == into.reach
    ensures CertainWithin(AfterRules(rules, into), apart)
  {
    if rules != [] {
      var n := |rules| - 1;
      RulesReachable(rules[..n], into, apart);
      assert rules[n] in rules;
      RuleReachable(rules[n], AfterRules(rules[..n], into), apart);
    }
  }

  /** The fields a rule takes out of reach. */
  function Takes(r: Rule): seq<Field> { if r.AcceptRule? then [] else r.removes }

  lemma RuleReachable(r: Rule, into: Flow, apart: set<Field>)
    requires CertainWithin(into, apart) && Takes(r) == []
    ensures AfterRule(r, into).reach == into.reach && CertainWithin(AfterRule(r, into), apart)
  {
    hide AfterAccept, AfterReject;
    match r {
      case AcceptRule(narrows) => AcceptReachable(narrows, into, apart);
      case RejectRule(removes, promotes) => RejectReachable(promotes, into, apart);
      case BothRule(narrows, removes, promotes) =>
        AcceptReachable(narrows, into, apart);
        RejectReachable(promotes, AfterAccept(narrows, into), apart);
    }
  }

  lemma AcceptReachable(narrows: seq<Field>, into: Flow, apart: set<Field>)
    requires CertainWithin(into, apart)
    ensures AfterAccept(narrows, into).reach == into.reach && CertainWithin(AfterAccept(narrows, into), apart)
  {
    hide Cert.Promoted;
    PromotedReachable(into.cert, Fresh(narrows, into.reach, Reference(into.cert)), into.reach + apart);
  }

  lemma RejectReachable(promotes: seq<Field>, into: Flow, apart: set<Field>)
    requires CertainWithin(into, apart)
    ensures AfterReject([], promotes, into).reach == into.reach && CertainWithin(AfterReject([], promotes, into), apart)
  {
    hide Cert.Narrowed, Without, Least;
    var gone := SetOf([]) * into.reach;
    assert gone == {};
    WithoutReachable(into, gone, apart);
    var left := Without(into, gone);
    WithoutNothing(into);
    var added := Fresh(promotes, left.reach, Reference(left.cert));
    NarrowedReachable(left.cert, added, Least(promotes, added), left.reach + apart);
  }

  lemma WithoutNothing(into: Flow)
    ensures Without(into, {}) == into
  {
  }

  lemma KindReachable(d: Descriptor, into: Flow, apart: set<Field>)
    requires CertainWithin(into, apart) && RulesTakeNothing(d)
    ensures CertainWithin(AfterKind(d, into), apart)
    ensures AfterKind(d, into).reach == into.reach + Named(d)
  {
    hide AfterRules, Cert.Narrowed;
    var within := into.reach + apart + Named(d);
    assert forall s: State :: into.cert.At(s) <= into.reach + apart;
    match d.kind {
      case Require(fields) => NarrowedReachable(into.cert, Named(d), if RequireFields(fields) == [] then ""
        else RequireFields(fields)[0], within);
      case Condition(rules) => RulesReachable(rules, into, apart);
      case _ =>
    }
  }

  // --- Certain fields that are not reachable ---

  /** The fields a require node makes reachable. */
  function Named(d: Descriptor): set<Field> { if d.kind.Require? then SetOf(RequireFields(d.kind.fields)) else {} }

  /** The fields a node makes reachable. */
  function Restored(d: Descriptor): set<Field> {
    Named(d) + if d.registered then SetOf(d.produces) + SetOf(d.mayProduce) + SubReach(d.subs) else {}
  }

  predicate RulesTakeNothing(d: Descriptor) { d.kind.Condition? ==> forall r :: r in d.kind.rules ==> Takes(r) == [] }

  /** Nothing is taken out of reach for good. */
  predicate TakesNothing(d: Descriptor) { SetOf(d.port.removes) <= Restored(d) && RulesTakeNothing(d) }

  /** From certain fields that are reachable to such fields, whatever arrives. */
  ghost predicate KeepsReachable(d: Descriptor) {
    forall into :: CertainReachable(into) ==> CertainReachable(EditorLeaving(d, AfterPort(d.port, into)))
  }

  lemma EditorReach(d: Descriptor, into: Flow, apart: set<Field>)
    requires CertainWithin(into, apart) && RulesTakeNothing(d)
    ensures EditorLeaving(d, into).reach == into.reach + Restored(d)
    ensures CertainWithin(EditorLeaving(d, into), apart)
  {
    hide AfterKind, RulesTakeNothing, Cert.Produced, Cert.Added, Named;
    var before := if d.registered then AfterSubs(d, AfterProduces(d, into)) else into;
    if d.registered {
      ProducesReachable(d, into, apart);
      SubsReachable(d, AfterProduces(d, into), apart);
    }
    KindReachable(d, before, apart);
  }

  lemma TakesNothingKeeps(d: Descriptor, into: Flow)
    requires TakesNothing(d) && CertainReachable(into)
    ensures CertainReachable(EditorLeaving(d, AfterPort(d.port, into)))
  {
    hide AfterPort, EditorLeaving, RulesTakeNothing, Restored;
    PortReachable(d.port, into);
    EditorReach(d, AfterPort(d.port, into), SetOf(d.port.removes));
  }

  lemma {:induction false} RulesShrink(rules: seq<Rule>, into: Flow)
    ensures AfterRules(rules, into).reach <= into.reach && into.cert.failed == AfterRules(rules, into).cert.failed
    ensures forall r, f :: r in rules && f in Takes(r) ==> f !in AfterRules(rules, into).reach
  {
    if rules != [] {
      var n := |rules| - 1;
      RulesShrink(rules[..n], into);
      RuleShrinks(rules[n], AfterRules(rules[..n], into));
      assert rules == rules[..n] + [rules[n]];
    }
  }

  lemma RuleShrinks(r: Rule, into: Flow)
    ensures AfterRule(r, into).reach <= into.reach && AfterRule(r, into).cert.failed == into.cert.failed
    ensures forall f :: f in Takes(r) ==> f !in AfterRule(r, into).reach
  {
    hide Cert.Effective, Least;
  }

  /** What is certain of failed entries stays certain of them, or of those swap_state exchanges them with. */
  lemma FailedStays(d: Descriptor, into: Flow, f: Field)
    requires f in into.cert.failed
    ensures exists s: State :: f in EditorLeaving(d, into).cert.At(s)
  {
    hide AfterProduces, AfterSubs, AfterKind;
    if d.registered { FailedGrows(d, into); }
    var s := KindKeeps(d, if d.registered then AfterSubs(d, AfterProduces(d, into)) else into, f);
    assert f in EditorLeaving(d, into).cert.At(s);
  }

  lemma KindKeeps(d: Descriptor, into: Flow, f: Field) returns (s: State)
    requires f in into.cert.failed
    ensures f in AfterKind(d, into).cert.At(s)
  {
    hide Cert.Effective, AfterRules, RequireFields, ParseStateName;
    s := Failed;
    match d.kind {
      case Ordinary =>
      case Require(_) =>
      case Condition(rules) => RulesShrink(rules, into);
      case SwapState(names) =>
        if AfterKind(d, into) != into {
          s := Flip(ParseStateName(names[0]).state, ParseStateName(names[1]).state, Failed);
        }
    }
  }

  lemma FailedGrows(d: Descriptor, into: Flow)
    ensures into.cert.failed <= AfterSubs(d, AfterProduces(d, into)).cert.failed
  {
    hide Cert.Effective;
    var p := AfterProduces(d, into).cert;
    assert into.cert.At(Failed) <= p.At(Failed);
    assert p.At(Failed) <= AfterSubs(d, AfterProduces(d, into)).cert.At(Failed);
  }

  lemma EditorReachAtMost(d: Descriptor, into: Flow, f: Field)
    requires f !in into.reach + Restored(d) || (d.kind.Condition? && exists r :: r in d.kind.rules && f in Takes(r))
    ensures f !in EditorLeaving(d, into).reach
  {
    hide AfterRules, Cert.Narrowed, Cert.Swapped, Cert.Added, Cert.Produced;
    var before := if d.registered then AfterSubs(d, AfterProduces(d, into)) else into;
    if d.kind.Condition? { RulesShrink(d.kind.rules, before); }
  }

  /** A node keeps certain fields reachable, whatever arrives, exactly when it takes none out of reach for good. */
  lemma KeepsReachableIff(d: Descriptor)
    ensures KeepsReachable(d) <==> TakesNothing(d)
  {
    hide AfterPort, EditorLeaving, Restored, CertainReachable;
    if TakesNothing(d) {
      forall into | CertainReachable(into) ensures CertainReachable(EditorLeaving(d, AfterPort(d.port, into))) {
        TakesNothingKeeps(d, into);
      }
    } else if exists f :: f in SetOf(d.port.removes) && f !in Restored(d) {
      var f :| f in SetOf(d.port.removes) && f !in Restored(d);
      LosesReach(d, f);
    } else {
      var r, k :| r in d.kind.rules && 0 <= k < |Takes(r)|;
      assert Takes(r)[k] in Takes(r);
      LosesReach(d, Takes(r)[k]);
    }
  }

  lemma LosesReach(d: Descriptor, f: Field)
    requires f in SetOf(d.port.removes) - Restored(d) ||
      (d.kind.Condition? && exists r :: r in d.kind.rules && f in Takes(r))
    ensures !KeepsReachable(d)
  {
    hide AfterPort, EditorLeaving, Restored;
    var into := Flow({f}, Cert({}, {}, {}, {f}, {Failed}));
    PortDrops(d.port, into);
    EditorReachAtMost(d, AfterPort(d.port, into), f);
    FailedStays(d, AfterPort(d.port, into), f);
    assert CertainReachable(into);
  }

  lemma PortDrops(port: Port, into: Flow)
    ensures AfterPort(port, into).cert.failed == into.cert.failed
    ensures forall f :: f in port.removes ==> f !in AfterPort(port, into).reach
  {
    hide Cert.Effective;
  }

  /** Where no node takes a field out of reach for good, what the editor shows as certain is among what it shows as
    reachable. */
  lemma {:induction false} ShownCertainIsReachable(g: Dag, uses: map<NodeID, Descriptor>, flows: map<NodeID, Flow>,
                                                   n: NodeID)
    requires Built(g) && IsEditorFlow(g, uses, flows) && g.ups.Keys <= uses.Keys && n in g.ups
    requires forall m :: m in g.ups ==> TakesNothing(uses[m])
    requires uses[n].port.removes == [] || InputStates(Shown(uses[n])) <= PASSING
    ensures var shown := FieldsAt(uses[n], Entering(uses[n], g.ups[n], flows)); shown.certain <= shown.reachable
  {
    hide EditorLeaving, Inherited, AfterPort, TakesNothing, Built, InputStates;
    forall u | u in g.ups[n] ensures CertainReachable(FlowAt(flows, u)) {
      EdgeForward(g, n, u);
      LeavingReachable(g, uses, flows, u);
    }
    InheritedReachable(g.ups[n], flows);
    PortReachable(uses[n].port, Inherited(g.ups[n], flows));
    EffectiveReachable(Entering(uses[n], g.ups[n], flows), Shown(uses[n]), SetOf(uses[n].port.removes));
  }

  lemma {:induction false} LeavingReachable(g: Dag, uses: map<NodeID, Descriptor>, flows: map<NodeID, Flow>, n: NodeID)
    requires Built(g) && IsEditorFlow(g, uses, flows) && g.ups.Keys <= uses.Keys && n in g.ups
    requires forall m :: m in g.ups ==> TakesNothing(uses[m])
    ensures CertainReachable(FlowAt(flows, n))
    decreases IndexOf(g.order, n)
  {
    hide EditorLeaving, Inherited, AfterPort, TakesNothing, Built;
    forall u | u in g.ups[n] ensures CertainReachable(FlowAt(flows, u)) {
      EdgeForward(g, n, u);
      LeavingReachable(g, uses, flows, u);
    }
    InheritedReachable(g.ups[n], flows);
    TakesNothingKeeps(uses[n], Inherited(g.ups[n], flows));
  }

  lemma EffectiveReachable(into: Flow, d: Descriptor, apart: set<Field>)
    requires CertainWithin(into, apart) && into.cert.accepted + into.cert.undecided <= into.reach
    requires apart == {} || InputStates(d) <= PASSING
    ensures CertainFor(d, into) <= into.reach
  {
    hide InputStates;
    forall states: set<State>, f | f in into.cert.Effective(states) && (apart == {} || states <= PASSING)
      ensures f in into.reach {
      var s :| s in states * into.cert.populated;
      assert f in into.cert.At(s);
      assert into.cert.At(s) <= into.reach + apart;
      assert s == Accepted ==> into.cert.At(s) == into.cert.accepted;
      assert s == Undecided ==> into.cert.At(s) == into.cert.undecided;
    }
  }

  // --- A graph whose editor shows a certain field that is not reachable ---

  const SOURCE: Descriptor := Descriptor(true, Source, {}, [], ["x"], [], Ordinary, [], NO_PORT)
  const SWAP: Descriptor := Descriptor(true, Processor, ALL, [], [], [], SwapState(["undecided", "failed"]), [],
    NO_PORT)
  const DROP: Descriptor := Descriptor(true, Processor, {}, [], [], [], Condition([RejectRule(["x"], [])]), [], NO_PORT)

  /** A source of x, swap_state(undecided, failed), condition(reject x != ""), and swap_state again, which takes all
    states. */
  const CHAIN: Dag := Dag(map["s" := [], "w" := ["s"], "c" := ["w"], "t" := ["c"]], ["s", "w", "c", "t"])
  const USES: map<NodeID, Descriptor> := map["s" := SOURCE, "w" := SWAP, "c" := DROP, "t" := SWAP]

  const FOUND: Flow := Flow({"x"}, Cert({"x"}, {}, {}, {}, {Undecided}))
  const FAILED: Flow := Flow({"x"}, Cert({}, {}, {}, {"x"}, {Failed}))
  const DROPPED: Flow := Flow({}, Cert({}, {}, {}, {"x"}, {Failed}))
  const BACK: Flow := Flow({}, Cert({"x"}, {}, {}, {}, {Undecided}))
  const SHOWN: map<NodeID, Flow> := map["s" := FOUND, "w" := FAILED, "c" := DROPPED, "t" := BACK]

  /** What the condition takes out of reach stays certain of the failed entries. */
  lemma ShownUnreachable()
    ensures Built(CHAIN) && IsEditorFlow(CHAIN, USES, SHOWN)
    ensures FieldsAt(USES["t"], Entering(USES["t"], CHAIN.ups["t"], SHOWN)) == NodeFieldSets({"x"}, {})
  {
    hide EditorLeaving, AfterPort, Inherited, FieldsAt, Built;
    ChainBuilt();
    SourceLeaves();
    SwapLeaves();
    DropLeaves();
    ChainEnters();
    DroppedShown();
  }

  lemma DroppedShown()
    ensures FieldsAt(SWAP, DROPPED) == NodeFieldSets({"x"}, {})
  {
    assert Failed in ALL * DROPPED.cert.populated;
    assert DROPPED.cert.Effective(ALL) == {"x"};
  }

  lemma ChainEnters()
    ensures Entering(SOURCE, [], SHOWN) == NOTHING && Entering(SWAP, ["s"], SHOWN) == FOUND
    ensures Entering(DROP, ["w"], SHOWN) == FAILED && Entering(SWAP, ["c"], SHOWN) == DROPPED
  {
    hide AfterPort;
    NoPort(NOTHING);
    NoPort(FOUND);
    NoPort(FAILED);
    NoPort(DROPPED);
  }

  lemma ChainBuilt()
    ensures Built(CHAIN)
  {
    var o := CHAIN.order;
    assert o[..1] == ["s"] && o[..2] == ["s", "w"] && o[..3] == ["s", "w", "c"];
  }

  lemma SourceLeaves()
    ensures EditorLeaving(SOURCE, NOTHING) == FOUND
  {
    assert SetOf(["x"]) == {"x"} && SetOf([]) == {};
  }

  lemma SwapLeaving(into: Flow)
    ensures EditorLeaving(SWAP, into) == into.(cert := into.cert.Swapped(Undecided, Failed))
  {
    hide Cert.Swapped, AfterSubs;
    assert SetOf([]) == {};
    assert AfterProduces(SWAP, into) == into;
    NoSubs(SWAP, into);
  }

  lemma SwapLeaves()
    ensures EditorLeaving(SWAP, FOUND) == FAILED && EditorLeaving(SWAP, DROPPED) == BACK
  {
    hide Cert.Swapped, EditorLeaving;
    SwapLeaving(FOUND);
    SwapLeaving(DROPPED);
    SameCert(FOUND.cert.Swapped(Undecided, Failed), FAILED.cert);
    SameCert(DROPPED.cert.Swapped(Undecided, Failed), BACK.cert);
  }

  lemma DropLeaves()
    ensures EditorLeaving(DROP, FAILED) == DROPPED
  {
    assert SetOf([]) == {} && SetOf(["x"]) == {"x"};
    NoSubs(DROP, FAILED);
    var rules := [RejectRule(["x"], [])];
    assert rules[..0] == [];
    assert AfterRules(rules, FAILED) == AfterReject(["x"], [], FAILED);
    var left := Without(FAILED, {"x"});
    assert left == DROPPED;
    assert Fresh([], left.reach, Reference(left.cert)) == {};
    assert AfterReject(["x"], [], FAILED) == DROPPED;
  }
}
