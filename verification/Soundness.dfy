/**
  The validator against the executor: if the validator is silent, every entry
  a plugin is called with carries the fields the plugin requires.
 */
module Soundness {
  import opened Graph
  import opened Entries
  import opened Dataflow
  import opened StateCert
  import opened CertMeaning
  import opened FieldFlow
  import opened Conditions
  import opened Validate

  // --- What is asked of the plugins ---

  /** The descriptors condition, require and swap_state are registered with; route ports are left out. */
  predicate Registered(d: Descriptor) {
    d.port == NO_PORT &&
    match d.kind
    case Ordinary => true
    case Condition(_) => d.role.Processor? && InputStates(d) == PASSING && d.produces == [] && d.subs == []
    case Require(_) => d.role.Processor? && InputStates(d) == PASSING && d.produces == [] && d.subs == []
    case SwapState(names) =>
      && d.role.Processor? && InputStates(d) == ALL && d.produces == [] && d.subs == []
      && |names| == 2 && ParseStateName(names[0]).Known? && ParseStateName(names[1]).Known?
  }

  function AllProduces(d: Descriptor): set<Field> { SetOf(d.produces) + SubFields(d.subs) }

  /** What a plugin does to an entry it is called with; a classifier may accept it. */
  function EffectOf(d: Descriptor, classifier: bool): Effect
    requires Registered(d) && !d.kind.Condition?
  {
    match d.kind
    case Ordinary => if classifier then Classify(InputStates(d), AllProduces(d))
      else Write(InputStates(d), AllProduces(d))
    case Require(fields) => if RequireFields(fields) == [] then Write({}, {}) else Filter(fields)
    case SwapState(names) => FlipStates(ParseStateName(names[0]).state, ParseStateName(names[1]).state)
  }

  /** An entry a plugin is called with as `i` can leave it as `j`. */
  ghost predicate Moves(d: Descriptor, classifier: bool, i: Item, j: Item)
    requires Registered(d)
  {
    if !d.kind.Condition? then Steps(EffectOf(d, classifier), i, j)
    else if i.state in PASSING then Decides(d.kind.rules, i, j)
    else j == i
  }

  /** Everything a plugin hands on is an entry it was handed, changed as its descriptor says, or failed by a sink; a
    source makes undecided ones. */
  ghost predicate Behaves(d: Descriptor, classifier: bool, r: Record)
    requires Registered(d)
  {
    forall o :: o in r.out && !o.marker ==>
      if d.role.Source? then o.state == Undecided && forall f :: f in AllProduces(d) ==> o.Has(f)
      else (d.role.Sink? && o.state == Failed) || exists h :: h in r.handed && !h.marker && Moves(d, classifier, h, o)
  }

  /** A pipeline: its descriptors, which of its processors are classifiers, and the instances that run. */
  datatype Pipeline = Pipeline(g: Dag, uses: map<NodeID, Descriptor>, classifiers: set<NodeID>,
    plugins: map<NodeID, Instance>)

  ghost predicate Fitted(p: Pipeline) {
    && Built(p.g) && p.g.ups.Keys <= p.uses.Keys && p.g.ups.Keys <= p.plugins.Keys
    && (forall n :: n in p.classifiers && n in p.g.ups ==> p.uses[n].role.Processor?)
    && forall n :: n in p.g.ups ==>
         Registered(p.uses[n]) && p.plugins[n].role == p.uses[n].role && p.plugins[n].states == InputStates(p.uses[n])
  }

  /** What the plugins of a run did; a sink nobody follows may do as it likes. */
  ghost predicate WellBehaved(p: Pipeline, recs: map<NodeID, Record>)
    requires Fitted(p)
  {
    forall n :: n in p.g.ups && n in recs && Downs(p.g, n) != {} ==>
      Behaves(p.uses[n], n in p.classifiers, recs[n])
  }

  /** What was certain of entries accepted before fits the others this classifier accepts; one that sets nothing is
    not tracked. */
  ghost predicate ClassifierFits(d: Descriptor, c: Cert) {
    if d.produces != [] then Accepted in InputStates(d) && Classifiable(c, InputStates(d), SetOf(d.produces))
    else d.subs == [] && Untracked(c, InputStates(d))
  }

  ghost predicate ClassifiersFit(p: Pipeline, flows: map<NodeID, Flow>)
    requires Fitted(p)
  {
    forall n :: n in p.classifiers && n in p.g.ups && p.uses[n].kind.Ordinary? ==>
      ClassifierFits(p.uses[n], Entering(p.uses[n], p.g.ups[n], flows).cert)
  }

  /** The validator claims no more of any way through a condition's rules than is known along it. */
  ghost predicate ConditionsFit(p: Pipeline, flows: map<NodeID, Flow>)
    requires Fitted(p)
  {
    forall n :: n in p.g.ups && p.uses[n].kind.Condition? ==>
      RulesExact(p.uses[n].kind.rules, AfterProduces(p.uses[n], Entering(p.uses[n], p.g.ups[n], flows)))
  }

  // --- One node's rule against its plugin ---

  lemma ProducedSound(c: Cert, states: set<State>, fields: set<Field>, i: Item, j: Item)
    requires Describes(c, i) && Steps(Write(states, fields), i, j)
    ensures Describes(c.Produced(states, fields), j)
  {
    if fields != {} {
      var inherited :=
        if Accepted in states && Accepted !in c.populated &&
          Undecided in c.populated then c.With(Accepted, c.undecided) else c;
      assert inherited.At(i.state) == c.At(i.state);
    }
  }

  /** Fields of the sub-plugins are added on top. */
  lemma AddedSound(c: Cert, states: set<State>, fields: set<Field>, j: Item)
    requires Describes(c, j) && (j.state in states ==> forall f :: f in fields ==> j.Has(f))
    ensures Describes(c.Added(states, fields), j)
  {
  }

  lemma NarrowerWrite(states: set<State>, more: set<Field>, fields: set<Field>, i: Item, j: Item)
    requires fields <= more
    ensures Steps(Write(states, more), i, j) ==> Steps(Write(states, fields), i, j)
    ensures Steps(Classify(states, more), i, j) ==> Steps(Classify(states, fields), i, j)
  {
  }

  lemma RequireFieldsIn(fields: seq<Field>)
    ensures SetOf(RequireFields(fields)) <= SetOf(fields)
  {
    if fields != [] {
      var n := |fields| - 1;
      RequireFieldsIn(fields[..n]);
      assert fields == fields[..n] + [fields[n]];
      forall f | f in RequireFields(fields) ensures f in fields {
        assert f in SetOf(RequireFields(fields[..n])) || f == fields[n];
        assert f in SetOf(fields[..n]) || f == fields[n];
      }
    }
  }

  lemma NoSetOf(d: Descriptor)
    ensures d.produces == [] ==> SetOf(d.produces) == {}
    ensures d.produces != [] ==> SetOf(d.produces) != {}
    ensures d.subs == [] ==> SubFields(d.subs) == {}
  {
    if d.produces != [] { assert d.produces[0] in SetOf(d.produces); }
  }

  /** The validator's rule for a node is right about what its plugin does to an entry. */
  lemma NodeRuleSound(d: Descriptor, classifier: bool, into: Flow, i: Item, j: Item)
    requires Registered(d) && !d.role.Source?
    requires classifier && d.kind.Ordinary? ==> ClassifierFits(d, into.cert)
    requires d.kind.Condition? ==> RulesExact(d.kind.rules, AfterProduces(d, into))
    requires Describes(into.cert, i) && Moves(d, classifier, i, j)
    ensures Describes(Leaving(d, into).cert, j)
  {
    hide Cert.Produced, Cert.Narrowed, Cert.Swapped, Cert.Added, Describes, Steps, Decides, RulesExact, AfterRules;
    hide ClassifierFits, InputStates, ParseStateName;
    NoSetOf(d);
    var states := InputStates(d);
    match d.kind {
      case Condition(rules) => ConditionSound(d, into, i, j);
      case Ordinary =>
        NarrowerWrite(states, AllProduces(d), SetOf(d.produces), i, j);
        OrdinarySound(d, classifier, into, i, j);
      case Require(fields) =>
        PlainLeaving(d, into);
        if RequireFields(fields) != [] {
          RequireFieldsIn(fields);
          assert RequireFields(fields)[0] in SetOf(RequireFields(fields));
          FilterSound(into.cert, fields, SetOf(RequireFields(fields)), RequireFields(fields)[0]);
          assert Sound(into.cert, Filter(fields),
            into.cert.Narrowed(SetOf(RequireFields(fields)), RequireFields(fields)[0]));
        } else {
          WroteNothing(i, j);
        }
      case SwapState(names) =>
        PlainLeaving(d, into);
        var a, b := ParseStateName(names[0]).state, ParseStateName(names[1]).state;
        FlipBest(into.cert, a, b);
        assert Sound(into.cert, FlipStates(a, b), into.cert.Swapped(a, b));
    }
  }

  lemma ConditionSound(d: Descriptor, into: Flow, i: Item, j: Item)
    requires Registered(d) && d.kind.Condition? && RulesExact(d.kind.rules, AfterProduces(d, into))
    requires Describes(into.cert, i) && Moves(d, false, i, j)
    ensures Describes(Leaving(d, into).cert, j)
  {
    hide Describes, Decides, RulesExact, AfterRules, InputStates;
    NoSetOf(d);
    var p := AfterProduces(d, into);
    assert p.cert == into.cert;
    NoSubs(d, AfterKind(d, p));
    if i.state in PASSING {
      ExactDescribes(d.kind.rules, p, i, j);
    } else {
      OthersDescribed(d.kind.rules, p, i);
    }
  }

  lemma WroteNothing(i: Item, j: Item)
    requires Steps(Write({}, {}), i, j)
    ensures j == i
  {
  }

  /** A node that produces nothing and has no sub-plugins only applies its kind's rule. */
  lemma PlainLeaving(d: Descriptor, into: Flow)
    requires d.produces == [] && d.subs == [] && !d.role.Source? && !d.kind.Condition?
    ensures Leaving(d, into).cert == AfterKind(d, into).cert
  {
    hide AfterKind;
    NoSetOf(d);
    var p := AfterProduces(d, into);
    assert p.cert == into.cert;
    KindCert(d, p, into);
    NoSubs(d, AfterKind(d, p));
  }

  lemma KindCert(d: Descriptor, a: Flow, b: Flow)
    requires a.cert == b.cert && !d.kind.Condition?
    ensures AfterKind(d, a).cert == AfterKind(d, b).cert
  {
    hide Cert.Narrowed, Cert.Swapped;
  }

  lemma OrdinarySound(d: Descriptor, classifier: bool, into: Flow, i: Item, j: Item)
    requires Registered(d) && !d.role.Source? && d.kind.Ordinary?
    requires classifier ==> ClassifierFits(d, into.cert)
    requires Describes(into.cert, i) && Steps(EffectOf(d, classifier), i, j)
    ensures Describes(Leaving(d, into).cert, j)
  {
    hide Cert.Produced, Cert.Added, Describes, Classifiable, Untracked, InputStates;
    NoSetOf(d);
    var states := InputStates(d);
    NarrowerWrite(states, AllProduces(d), SetOf(d.produces), i, j);
    if classifier && d.produces == [] {
      UntrackedSoundIff(into.cert, states);
      assert Steps(Classify(states, {}), i, j);
    } else if classifier {
      ClassifyStep(into.cert, states, SetOf(d.produces), i, j);
    } else {
      ProducedSound(into.cert, states, SetOf(d.produces), i, j);
    }
    AddedSound(into.cert.Produced(states, SetOf(d.produces)), states, SubFields(d.subs), j);
  }

  lemma SourceSound(d: Descriptor, into: Flow, o: Item)
    requires d.role.Source? && d.kind.Ordinary? && into == NOTHING
    requires o.state == Undecided && forall f :: f in AllProduces(d) ==> o.Has(f)
    ensures Describes(Leaving(d, into).cert, o)
  {
    hide SubFields;
    assert AfterProduces(d, into).cert == Cert(SetOf(d.produces), {}, {}, {}, {Undecided});
  }

  // --- From node to node ---

  /** The entries leaving a node that the validator speaks of: markers bypass most plugins, and what a sink has
    consumed or failed bypasses most sinks. */
  predicate Tracked(d: Descriptor, i: Item) { !i.marker && !(d.role.Sink? && (i.consumed || i.state == Failed)) }

  ghost predicate FollowsSink(p: Pipeline, n: NodeID)
    requires n in p.g.ups
  {
    exists u :: u in p.g.ups[n] && u in p.g.ups && u in p.uses && p.uses[u].role.Sink?
  }

  /** And those arriving at one. */
  ghost predicate Expected(p: Pipeline, n: NodeID, i: Item)
    requires n in p.g.ups && n in p.uses
  {
    !i.marker && !(p.uses[n].role.Sink? && i.consumed) && !(FollowsSink(p, n) && i.state == Failed)
  }

  ghost predicate ArrivalsDescribed(c: Cert, p: Pipeline, n: NodeID, items: seq<Item>)
    requires n in p.g.ups && n in p.uses
  {
    forall i :: i in items && Expected(p, n, i) ==> Describes(c, i)
  }

  ghost predicate AllDescribed(c: Cert, d: Descriptor, items: seq<Item>) {
    forall i :: i in items && Tracked(d, i) ==> Describes(c, i)
  }

  /** An entry bypasses a plugin in a state it does not act on, as a marker, or consumed at a sink. */
  lemma BypassWhy(inst: Instance, arrived: seq<Item>, i: Item)
    requires i in Bypassing(inst, arrived)
    ensures i in arrived && (i.state !in inst.states || i.marker || (inst.role.Sink? && i.consumed))
  {
    hide Keep;
    KeepIs(arrived, InStates(inst.states), true);
    KeepIs(arrived, InStates(inst.states), false);
    var matching := Keep(arrived, InStates(inst.states), true);
    KeepIs(matching, IsConsumed, true);
    KeepIs(matching, IsConsumed, false);
    var live := if inst.role.Sink? then Keep(matching, IsConsumed, false) else matching;
    KeepIs(live, IsMarker, true);
  }

  /** What a plugin is called with has arrived, in a state it acts on, and is not consumed at a sink. */
  lemma HandedWhy(inst: Instance, arrived: seq<Item>, i: Item)
    requires i in Handed(inst, arrived)
    ensures !inst.role.Source? && i in arrived && i.state in inst.states && !(inst.role.Sink? && i.consumed)
    ensures i.marker ==> inst.acceptsMarkers
  {
    hide Keep;
    KeepIs(arrived, InStates(inst.states), true);
    var matching := Keep(arrived, InStates(inst.states), true);
    KeepIs(matching, IsConsumed, false);
    var live := if inst.role.Sink? then Keep(matching, IsConsumed, false) else matching;
    KeepIs(live, IsMarker, false);
  }

  lemma {:induction false} GatheredFrom(ups: seq<NodeID>, plugins: map<NodeID, Instance>, recs: map<NodeID, Record>,
                                        i: Item)
    requires i in Gather(ups, plugins, recs)
    ensures exists u :: u in ups && u in plugins && u in recs && i in Leaves(plugins[u], recs[u])
  {
    var n := |ups| - 1;
    assert ups[n] in ups;
    if i in Gather(ups[..n], plugins, recs) {
      GatheredFrom(ups[..n], plugins, recs, i);
      var u :| u in ups[..n] && u in plugins && u in recs && i in Leaves(plugins[u], recs[u]);
      assert u in ups;
    }
  }

  /** What one upstream's value describes, the inherited value does. */
  lemma {:induction false} InheritedDescribes(ups: seq<NodeID>, flows: map<NodeID, Flow>, u: NodeID, i: Item)
    requires u in ups && Describes(FlowAt(flows, u).cert, i)
    ensures Describes(Inherited(ups, flows).cert, i)
  {
    if |ups| > 1 {
      var n := |ups| - 1;
      var rest, last := Inherited(ups[..n], flows).cert, FlowAt(flows, ups[n]).cert;
      if u in ups[..n] { InheritedDescribes(ups[..n], flows, u, i); }
      assert Describes(rest, i) || Describes(last, i);
      assert rest.Intersection(last).At(i.state) == rest.Meeting(last, i.state);
    }
  }

  /** The validator found nothing. */
  ghost predicate Silent(p: Pipeline, flows: map<NodeID, Flow>) {
    Found(p.g, p.uses, flows, p.g.ups.Keys, [], [])
  }

  ghost predicate Validated(p: Pipeline, flows: map<NodeID, Flow>, recs: map<NodeID, Record>) {
    && Fitted(p) && IsFlow(p.g, p.uses, flows) && Silent(p, flows) && ClassifiersFit(p, flows) &&
      ConditionsFit(p, flows)
    && IsDataflow(p.g, p.plugins, recs) && WellBehaved(p, recs)
  }

  /** A silent validator has checked the roles: sources come first, and only sinks follow sinks. */
  lemma RolesChecked(p: Pipeline, flows: map<NodeID, Flow>, n: NodeID)
    requires Fitted(p) && Silent(p, flows) && n in p.g.ups
    ensures p.uses[n].registered
    ensures p.uses[n].role.Source? ==> p.g.ups[n] == []
    ensures forall u :: u in p.g.ups[n] && u in p.g.ups && p.uses[u].role.Sink? ==> p.uses[n].role.Sink?
  {
    hide Inherited, AfterPort, CertainFor, Built;
    assert !Applies(p.g, p.uses, flows, UnknownPlugin(n));
    assert !Applies(p.g, p.uses, flows, SourceHasUpstreams(n));
    forall u | u in p.g.ups[n] && u in p.g.ups && p.uses[u].role.Sink? ensures p.uses[n].role.Sink? {
      assert !Applies(p.g, p.uses, flows, UnknownPlugin(u));
      assert !Applies(p.g, p.uses, flows, SinkFeeds(u, n));
    }
  }

  lemma NothingAtPort(d: Descriptor, ups: seq<NodeID>, flows: map<NodeID, Flow>)
    requires d.port == NO_PORT
    ensures Entering(d, ups, flows) == Inherited(ups, flows)
  {
    hide AfterPort, Inherited;
    NoPort(Inherited(ups, flows));
  }

  lemma ArrivedDescribed(p: Pipeline, flows: map<NodeID, Flow>, recs: map<NodeID, Record>, n: NodeID)
    requires Validated(p, flows, recs) && n in p.g.ups
    requires forall u :: u in p.g.ups[n] ==>
      u in p.g.ups && AllDescribed(FlowAt(flows, u).cert, p.uses[u], Leaves(p.plugins[u], recs[u]))
    ensures ArrivalsDescribed(Entering(p.uses[n], p.g.ups[n], flows).cert, p, n, recs[n].arrived)
  {
    hide Describes, Inherited, Entering, AfterProduces, Built, Applies, Gather, Leaves, Merge, CertainFor, FlowAt;
    hide ClassifiersFit, ConditionsFit;
    var d, ups := p.uses[n], p.g.ups[n];
    RolesChecked(p, flows, n);
    NothingAtPort(d, ups, flows);
    forall i | i in recs[n].arrived && Expected(p, n, i) ensures Describes(Entering(d, ups, flows).cert, i) {
      MergeIs(Gather(ups, p.plugins, recs));
      GatheredFrom(ups, p.plugins, recs, i);
      var u :| u in ups && u in p.plugins && u in recs && i in Leaves(p.plugins[u], recs[u]);
      assert Tracked(p.uses[u], i);
      InheritedDescribes(ups, flows, u, i);
    }
  }

  /** Soundness of the abstract values: each allows for everything that leaves its node. */
  lemma {:induction false} LeavesDescribed(p: Pipeline, flows: map<NodeID, Flow>, recs: map<NodeID, Record>, n: NodeID)
    requires Validated(p, flows, recs) && n in p.g.ups && Downs(p.g, n) != {}
    ensures AllDescribed(FlowAt(flows, n).cert, p.uses[n], Leaves(p.plugins[n], recs[n]))
    decreases IndexOf(p.g.order, n)
  {
    hide Describes, Inherited, AfterPort, AfterProduces, Built, Applies, Gather, Merge, CertainFor, Handed;
    hide Bypassing, Leaving, EffectOf, Classifiable;
    var d, inst, into := p.uses[n], p.plugins[n], Entering(p.uses[n], p.g.ups[n], flows);
    forall u | u in p.g.ups[n]
      ensures u in p.g.ups && AllDescribed(FlowAt(flows, u).cert, p.uses[u], Leaves(p.plugins[u], recs[u]))
    {
      EdgeForward(p.g, n, u);
      assert n in Downs(p.g, u);
      LeavesDescribed(p, flows, recs, u);
    }
    ArrivedDescribed(p, flows, recs, n);
    RolesChecked(p, flows, n);
    forall o | o in Leaves(inst, recs[n]) && Tracked(d, o) ensures Describes(Leaving(d, into).cert, o) {
      LeavingDescribed(p, flows, recs, n, o);
    }
  }

  /** What passes a node by, or comes of what it was handed, was expected there. */
  lemma ExpectedBefore(p: Pipeline, flows: map<NodeID, Flow>, n: NodeID, h: Item, o: Item)
    requires Fitted(p) && Silent(p, flows) && n in p.g.ups && Tracked(p.uses[n], o) && !h.marker
    requires h == o || (Moves(p.uses[n], n in p.classifiers, h, o) && !(p.uses[n].role.Sink? && h.consumed))
    ensures Expected(p, n, h)
  {
    hide Built, Silent, Decides;
    RolesChecked(p, flows, n);
  }

  lemma LeavingDescribed(p: Pipeline, flows: map<NodeID, Flow>, recs: map<NodeID, Record>, n: NodeID, o: Item)
    requires Validated(p, flows, recs) && n in p.g.ups && Downs(p.g, n) != {}
    requires ArrivalsDescribed(Entering(p.uses[n], p.g.ups[n], flows).cert, p, n, recs[n].arrived)
    requires o in Leaves(p.plugins[n], recs[n]) && Tracked(p.uses[n], o)
    ensures Describes(Leaving(p.uses[n], Entering(p.uses[n], p.g.ups[n], flows)).cert, o)
  {
    hide Describes, Built, Applies, Gather, Merge, CertainFor, Handed, Bypassing, Leaving, EffectOf, ClassifierFits;
    hide Steps, Expected, Moves, Decides, RulesExact;
    var d, inst, r, into := p.uses[n], p.plugins[n], recs[n], Entering(p.uses[n], p.g.ups[n], flows);
    RolesChecked(p, flows, n);
    if o in Bypassing(inst, r.arrived) {
      BypassWhy(inst, r.arrived, o);
      SourceBypassesNothing(inst, r.arrived);
      Untouched(d, n in p.classifiers, o);
      ExpectedBefore(p, flows, n, o, o);
      NodeRuleSound(d, n in p.classifiers, into, o, o);
    } else if d.role.Source? {
      SourceSound(d, into, o);
    } else {
      var h :| h in r.handed && !h.marker && Moves(d, n in p.classifiers, h, o);
      HandedWhy(inst, r.arrived, h);
      ExpectedBefore(p, flows, n, h, o);
      NodeRuleSound(d, n in p.classifiers, into, h, o);
    }
  }

  lemma SourceBypassesNothing(inst: Instance, arrived: seq<Item>)
    ensures inst.role.Source? ==> Bypassing(inst, arrived) == []
  {
  }

  lemma Untouched(d: Descriptor, classifier: bool, i: Item)
    requires Registered(d) && i.state !in InputStates(d)
    ensures Moves(d, classifier, i, i)
  {
  }

  /** What is handed to a plugin was expected, and is described. */
  lemma HandedDescribed(p: Pipeline, flows: map<NodeID, Flow>, recs: map<NodeID, Record>, n: NodeID, i: Item)
    requires Validated(p, flows, recs) && n in p.g.ups && i in recs[n].handed && !i.marker
    requires i.state == Failed ==> !FollowsSink(p, n)
    ensures Describes(Entering(p.uses[n], p.g.ups[n], flows).cert, i) && i.state in InputStates(p.uses[n])
  {
    hide Entering, Built, Gather, Merge, Handed, Leaving, EffectOf, Leaves, FlowAt, Silent;
    hide ClassifiersFit, ConditionsFit;
    hide InputStates, Describes, Declines;
    forall u | u in p.g.ups[n]
      ensures u in p.g.ups && AllDescribed(FlowAt(flows, u).cert, p.uses[u], Leaves(p.plugins[u], recs[u]))
    {
      EdgeForward(p.g, n, u);
      assert n in Downs(p.g, u);
      LeavesDescribed(p, flows, recs, u);
    }
    ArrivedDescribed(p, flows, recs, n);
    HandedWhy(p.plugins[n], recs[n].arrived, i);
  }

  lemma SilentMeets(p: Pipeline, flows: map<NodeID, Flow>, n: NodeID, group: seq<Field>)
    requires Fitted(p) && Silent(p, flows) && n in p.g.ups && group in p.uses[n].needs
    ensures Meets(CertainFor(p.uses[n], Entering(p.uses[n], p.g.ups[n], flows)), group)
  {
    hide Built, Entering, CertainFor;
    RolesChecked(p, flows, n);
    assert !Applies(p.g, p.uses, flows, NotProduced(n, group));
    assert !Applies(p.g, p.uses, flows, NotCertain(n, group));
  }

  /**
    The theorem: if the validator is silent, and the plugins do what their
    descriptors say, every entry a plugin is called with has a field of each of
    the plugin's Requires groups. Not so a marker at a plugin that takes markers
    and requires fields, nor an entry that a sink has failed and that is handed
    to another.
   */
  lemma ValidatorSound(p: Pipeline, flows: map<NodeID, Flow>, recs: map<NodeID, Record>, n: NodeID, i: Item,
                       group: seq<Field>)
    requires Validated(p, flows, recs) && n in p.g.ups
    requires i in recs[n].handed && group in p.uses[n].needs
    requires i.marker ==> !p.plugins[n].acceptsMarkers || p.uses[n].needs == []
    requires i.state == Failed ==> !FollowsSink(p, n)
    ensures exists f :: f in group && i.Has(f)
  {
    hide Built, Entering, Gather, Merge, Handed, Leaving, EffectOf, Leaves, FlowAt, Silent;
    hide ClassifiersFit, ConditionsFit;
    var d, into := p.uses[n], Entering(p.uses[n], p.g.ups[n], flows);
    HandedWhy(p.plugins[n], recs[n].arrived, i);
    HandedDescribed(p, flows, recs, n, i);
    SilentMeets(p, flows, n, group);
    var f :| f in group && f in CertainFor(d, into);
    assert i.state in InputStates(d) * into.cert.populated;
    assert f in into.cert.At(i.state);
  }

  /** Unless a plugin asks for one of the fields every entry has, that field is in the entry's metadata bag. */
  lemma HasIsInBag(i: Item, f: Field)
    requires i.Has(f) && f !in STRUCT
    ensures f in i.fields
  {
  }

  // --- The condition on markers cannot be dropped ---

  const SOURCE: Descriptor := Descriptor(true, Source, {}, [], ["x"], [], Ordinary, [], NO_PORT)
  const SINK: Descriptor := Descriptor(true, Sink, {}, [["x"]], [], [], Ordinary, [], NO_PORT)

  /** A source that sets x, and a sink that requires x and also takes markers. */
  const EXAMPLE: Pipeline := Pipeline(
    Dag(map["s" := [], "t" := ["s"]], ["s", "t"]), map["s" := SOURCE, "t" := SINK], {},
    map["s" := Instance(Source, ALL, false, false, false, false),
      "t" := Instance(Sink, {Accepted}, true, false, false, false)])

  const MARKER: Item := Item("(no entries)", "", "", "", Accepted, false, true, map[])

  const AFTER: Flow := Flow({"x"}, Cert({"x"}, {}, {}, {}, {Undecided}))

  /**
    A plugin that takes markers and requires a field could be handed a marker
    without it. Of the registered plugins only route_selector does both, and
    route sets its field.
   */
  lemma MarkersEscape()
    ensures exists flows, recs: map<NodeID, Record> ::
      && Validated(EXAMPLE, flows, recs) && "t" in recs && MARKER in recs["t"].handed
      && ["x"] in EXAMPLE.uses["t"].needs && !MARKER.Has("x")
  {
    hide Fitted, IsFlow, Silent, ClassifiersFit, ConditionsFit, IsDataflow, WellBehaved, Handed;
    var flows := map["s" := AFTER, "t" := AFTER];
    var recs := map["s" := Record([], [], [MARKER], [], false),
      "t" := Record([MARKER], [MARKER], [MARKER], [MARKER], false)];
    ExampleFitted();
    ExampleFlow();
    ExampleSilent();
    ExampleHanded();
    ExampleRuns(recs);
    NoClassifiers(flows);
    assert ["x"] in EXAMPLE.uses["t"].needs;
    assert Validated(EXAMPLE, flows, recs);
  }

  lemma NoClassifiers(flows: map<NodeID, Flow>)
    requires Fitted(EXAMPLE)
    ensures ClassifiersFit(EXAMPLE, flows) && ConditionsFit(EXAMPLE, flows)
  {
  }

  lemma ExampleFitted()
    ensures Fitted(EXAMPLE)
  {
    var g := EXAMPLE.g;
    assert g.order[..1] == ["s"];
  }

  lemma ExampleFlow()
    ensures IsFlow(EXAMPLE.g, EXAMPLE.uses, map["s" := AFTER, "t" := AFTER])
  {
    hide AfterPort, Leaving;
    var flows := map["s" := AFTER, "t" := AFTER];
    NoPort(NOTHING);
    NoPort(AFTER);
    assert Inherited([], flows) == NOTHING && Inherited(["s"], flows) == AFTER;
    ExampleLeaving();
  }

  lemma ExampleLeaving()
    ensures Leaving(SOURCE, NOTHING) == AFTER && Leaving(SINK, AFTER) == AFTER
  {
    assert SetOf(["x"]) == {"x"} && SetOf([]) == {};
  }

  lemma ExampleCertain()
    ensures CertainFor(SINK, AFTER) == {"x"} && Meets({"x"}, ["x"])
    ensures Entering(SINK, ["s"], map["s" := AFTER, "t" := AFTER]) == AFTER
  {
    NoPort(AFTER);
    assert AFTER.cert.Effective({Accepted}) == {};
    assert Undecided in AFTER.cert.populated * PASSING;
    assert "x" in ["x"];
  }

  lemma ExampleSilent()
    requires Fitted(EXAMPLE)
    ensures Silent(EXAMPLE, map["s" := AFTER, "t" := AFTER])
  {
    hide Entering, Downs, CertainFor, Meets, Fitted;
    var flows := map["s" := AFTER, "t" := AFTER];
    NoneFollow();
    ExampleCertain();
    forall f ensures !Applies(EXAMPLE.g, EXAMPLE.uses, flows, f) {
    }
  }

  lemma KeepOne(i: Item, t: Test, want: bool)
    ensures Keep([i], t, want) == if Entries.Holds(t, i) == want then [i] else []
  {
    assert [i][..0] == [];
  }

  lemma MergeOne(i: Item)
    ensures Merge([]) == [] && (i.url == "" ==> Merge([i]) == [i])
  {
    assert [i][..0] == [];
  }

  lemma GatherOne(u: NodeID, plugins: map<NodeID, Instance>, recs: map<NodeID, Record>)
    requires u in plugins && u in recs
    ensures Gather([], plugins, recs) == [] && Gather([u], plugins, recs) == Leaves(plugins[u], recs[u])
  {
    hide Leaves;
    assert [u][..0] == [];
  }

  lemma ExampleHanded()
    ensures Handed(EXAMPLE.plugins["s"], []) == [] && Handed(EXAMPLE.plugins["t"], [MARKER]) == [MARKER]
  {
    hide Keep;
    KeepOne(MARKER, InStates({Accepted}), true);
    KeepOne(MARKER, IsConsumed, false);
  }

  lemma ExampleRuns(recs: map<NodeID, Record>)
    requires recs ==
      map["s" := Record([], [], [MARKER], [], false), "t" := Record([MARKER], [MARKER], [MARKER], [MARKER], false)]
    requires Fitted(EXAMPLE)
    ensures IsDataflow(EXAMPLE.g, EXAMPLE.plugins, recs) && WellBehaved(EXAMPLE, recs)
  {
    hide Merge, Handed, Keep, EffectOf, Steps, Gather, Built;
    ExampleHanded();
    MergeOne(MARKER);
    assert Leaves(EXAMPLE.plugins["s"], recs["s"]) == [MARKER];
    GatherOne("s", EXAMPLE.plugins, recs);
    NoneFollow();
  }

  lemma NoneFollow()
    ensures Downs(EXAMPLE.g, "t") == {}
  {
  }
}
