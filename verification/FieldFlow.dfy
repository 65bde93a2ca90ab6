/**
  How one node of a pipeline changes the fields the analyses track: the rules
  shared by internal/dag/validate.go and internal/dag/fieldsets.go.
 */
module FieldFlow {
  import opened Graph
  import opened Entries
  import opened Dataflow
  import opened StateCert

  datatype Kind =
    | Ordinary
    | Require(fields: seq<Field>)
    | SwapState(names: seq<string>)
    | Condition(rules: seq<Rule>)

  /**
    A rule of a condition node, by what its expressions let the analyses infer:
    the fields set where `accept` is true, and those unset and those set where
    `reject` is false.
   */
  datatype Rule =
    | AcceptRule(narrows: seq<Field>)
    | RejectRule(removes: seq<Field>, promotes: seq<Field>)
    | BothRule(narrows: seq<Field>, removes: seq<Field>, promotes: seq<Field>)

  /** What a route port's expression lets them infer of the entries it is true of; nothing for other nodes. */
  datatype Port = Port(narrows: seq<Field>, removes: seq<Field>)

  const NO_PORT: Port := Port([], [])

  /** The fields of a `list` or `search` sub-plugin. */
  datatype SubPlugin = SubPlugin(produces: seq<Field>, mayProduce: seq<Field>)

  /** What the registry and a node's configuration say of it; without a registered plugin only `kind` and `port` mean
    anything. */
  datatype Descriptor = Descriptor(
    registered: bool,
    role: Role,
    inputStates: set<State>,  // empty when not declared
    needs: seq<seq<Field>>,   // the Requires groups
    produces: seq<Field>,
    mayProduce: seq<Field>,
    kind: Kind,
    subs: seq<SubPlugin>,
    port: Port
  )

  /** The plugins known by name are processors. */
  predicate Sensible(d: Descriptor) { d.registered && !d.kind.Ordinary? ==> d.role.Processor? }

  function InputStates(d: Descriptor): set<State> {
    if d.inputStates != {} then d.inputStates
    else match d.role
      case Processor => PASSING
      case Sink => {Accepted}
      case Source => ALL
  }

  function ProducingStates(d: Descriptor): set<State> {
    if d.role.Source? then {Undecided} else InputStates(d)
  }

  /** The fields there may be, and those there must be. */
  datatype Flow = Flow(reach: set<Field>, cert: Cert)

  const NOTHING: Flow := Flow({}, EMPTY)

  /** A node that left nothing behind, because its plugin is unknown, reads as the zero value. */
  function FlowAt(flows: map<NodeID, Flow>, id: NodeID): Flow { if id in flows then flows[id] else NOTHING }

  /** What a node's upstreams pass on to it. */
  function Inherited(ups: seq<NodeID>, flows: map<NodeID, Flow>): Flow {
    if ups == [] then NOTHING
    else if |ups| == 1 then FlowAt(flows, ups[0])
    else
      var n := |ups| - 1;
      var rest, last := Inherited(ups[..n], flows), FlowAt(flows, ups[n]);
      Flow(rest.reach + last.reach, rest.cert.Intersection(last.cert))
  }

  // --- What conditions add ---

  /** What an expression adds: the reachable fields among these that are not certain yet. */
  function Fresh(fields: seq<Field>, reach: set<Field>, certain: set<Field>): set<Field> {
    set f | f in fields && f in reach && f !in certain
  }

  /** What counts as certain already. */
  function Reference(c: Cert): set<Field> { if Undecided in c.populated then c.undecided else c.accepted }

  /** The alphabetically first of the fields among these. */
  function Least(fields: seq<Field>, among: set<Field>): Field {
    if fields == [] then ""
    else
      var n := |fields| - 1;
      var rest, last := Least(fields[..n], among), fields[n];
      if last !in among then rest
      else if SetOf(fields[..n]) * among == {} || Less(last, rest) then last else rest
  }

  function AfterAccept(narrows: seq<Field>, into: Flow): Flow {
    into.(cert := into.cert.Promoted(Fresh(narrows, into.reach, Reference(into.cert))))
  }

  function Without(into: Flow, fields: set<Field>): Flow { Flow(into.reach - fields, into.cert.Removed(fields)) }

  function AfterReject(removes: seq<Field>, promotes: seq<Field>, into: Flow): Flow {
    var left := Without(into, SetOf(removes) * into.reach);
    var added := Fresh(promotes, left.reach, Reference(left.cert));
    left.(cert := left.cert.Narrowed(added, Least(promotes, added)))
  }

  function AfterRule(r: Rule, into: Flow): Flow {
    match r
    case AcceptRule(narrows) => AfterAccept(narrows, into)
    case RejectRule(removes, promotes) => AfterReject(removes, promotes, into)
    case BothRule(narrows, removes, promotes) => AfterReject(removes, promotes, AfterAccept(narrows, into))
  }

  function AfterRules(rules: seq<Rule>, into: Flow): Flow {
    if rules == [] then into else AfterRule(rules[|rules| - 1], AfterRules(rules[..|rules| - 1], into))
  }

  function AfterPort(port: Port, into: Flow): Flow {
    var added := Fresh(port.narrows, into.reach, into.cert.accepted);
    Without(into.(cert := into.cert.Narrowed(added, "")), SetOf(port.removes) * into.reach)
  }

  lemma NoPort(into: Flow)
    ensures AfterPort(NO_PORT, into) == into
  {
    assert Fresh([], into.reach, into.cert.accepted) == {} && SetOf([]) * into.reach == {};
  }

  /** Inferring anything of a port's entries marks Rejected populated, though what did not match goes elsewhere. */
  lemma PortMarksRejected(port: Port, into: Flow)
    ensures Rejected in AfterPort(port, into).cert.populated <==>
      Rejected in into.cert.populated
      || (PASSING * into.cert.populated != {}
          && exists f :: f in port.narrows && f in into.reach && f !in into.cert.accepted)
  {
    hide Cert.Effective;
    var added := Fresh(port.narrows, into.reach, into.cert.accepted);
    if exists f :: f in port.narrows && f in into.reach && f !in into.cert.accepted {
      var f :| f in port.narrows && f in into.reach && f !in into.cert.accepted;
      assert f in added;
    } else {
      assert added == {};
    }
  }

  /** What enters a node. */
  function Entering(d: Descriptor, ups: seq<NodeID>, flows: map<NodeID, Flow>): Flow {
    AfterPort(d.port, Inherited(ups, flows))
  }

  // --- What a node adds ---

  function AfterProduces(d: Descriptor, into: Flow): Flow {
    Flow(into.reach + SetOf(d.produces) + SetOf(d.mayProduce),
         if d.role.Source? then into.cert.Marked({Undecided}).Added({Undecided}, SetOf(d.produces))
         else into.cert.Produced(ProducingStates(d), SetOf(d.produces)))
  }

  /** The configured names of a require node that are not blank. */
  function RequireFields(fields: seq<Field>): seq<Field> {
    if fields == [] then []
    else
      var n := |fields| - 1;
      RequireFields(fields[..n]) + if fields[n] == "" then [] else [fields[n]]
  }

  datatype ParsedState = Known(state: State) | UnknownName

  function ParseStateName(name: string): ParsedState {
    if name == "accepted" then Known(Accepted)
    else if name == "rejected" then Known(Rejected)
    else if name == "failed" then Known(Failed)
    else if name == "undecided" then Known(Undecided)
    else UnknownName
  }

  function AfterKind(d: Descriptor, into: Flow): Flow {
    match d.kind
    case Ordinary => into
    case Require(fields) =>
      var named := RequireFields(fields);
      if named == [] then into
      else Flow(into.reach + SetOf(named), into.cert.Narrowed(SetOf(named), named[0]))
    case SwapState(names) =>
      if |names| == 2 && ParseStateName(names[0]).Known? && ParseStateName(names[1]).Known? then
        into.(cert := into.cert.Swapped(ParseStateName(names[0]).state, ParseStateName(names[1]).state))
      else into
    case Condition(rules) => AfterRules(rules, into)
  }

  function SubFields(subs: seq<SubPlugin>): set<Field> {
    if subs == [] then {} else SubFields(subs[..|subs| - 1]) + SetOf(subs[|subs| - 1].produces)
  }

  function SubReach(subs: seq<SubPlugin>): set<Field> {
    if subs == [] then {}
    else SubReach(subs[..|subs| - 1]) + SetOf(subs[|subs| - 1].produces) + SetOf(subs[|subs| - 1].mayProduce)
  }

  function AfterSubs(d: Descriptor, into: Flow): Flow {
    Flow(into.reach + SubReach(d.subs), into.cert.Added(ProducingStates(d), SubFields(d.subs)))
  }

  /** What leaves a node, as the validator has it. */
  function Leaving(d: Descriptor, into: Flow): Flow { AfterSubs(d, AfterKind(d, AfterProduces(d, into))) }

  /** The validator's flows of a whole graph: every node with a registered plugin, from its upstreams. */
  ghost predicate IsFlow(g: Dag, uses: map<NodeID, Descriptor>, flows: map<NodeID, Flow>) {
    && (forall n :: n in flows <==> n in g.ups && n in uses && uses[n].registered)
    && forall n :: n in flows ==> flows[n] == Leaving(uses[n], Entering(uses[n], g.ups[n], flows))
  }

  lemma {:induction false} InheritedStable(ups: seq<NodeID>, flows: map<NodeID, Flow>, n: NodeID, f: Flow)
    requires n !in ups
    ensures Inherited(ups, flows[n := f]) == Inherited(ups, flows)
  {
    if |ups| > 1 {
      var k := |ups| - 1;
      assert ups == ups[..k] + [ups[k]];
      InheritedStable(ups[..k], flows, n, f);
    }
  }

  /** The editor applies the same rules in another order, and to every node. */
  function EditorLeaving(d: Descriptor, into: Flow): Flow {
    AfterKind(d, if d.registered then AfterSubs(d, AfterProduces(d, into)) else into)
  }

  ghost predicate IsEditorFlow(g: Dag, uses: map<NodeID, Descriptor>, flows: map<NodeID, Flow>) {
    && (forall n :: n in flows <==> n in g.ups && n in uses)
    && forall n :: n in flows ==> flows[n] == EditorLeaving(uses[n], Entering(uses[n], g.ups[n], flows))
  }

  /** Where every plugin is registered, and no condition, require or swap_state node has sub-plugins, both find the
    same flows. */
  lemma {:induction false} EditorAgrees(g: Dag, uses: map<NodeID, Descriptor>, a: map<NodeID, Flow>,
                                        b: map<NodeID, Flow>, n: NodeID)
    requires Built(g) && IsFlow(g, uses, a) && IsEditorFlow(g, uses, b) && n in g.ups
    requires forall m :: m in g.ups ==>
      m in uses && uses[m].registered && (uses[m].kind.Ordinary? || uses[m].subs == [])
    ensures FlowAt(a, n) == FlowAt(b, n)
    ensures Entering(uses[n], g.ups[n], a) == Entering(uses[n], g.ups[n], b)
    decreases IndexOf(g.order, n)
  {
    hide Leaving, EditorLeaving, Inherited, AfterPort, Built;
    forall u | u in g.ups[n] ensures FlowAt(a, u) == FlowAt(b, u) {
      EdgeForward(g, n, u);
      EditorAgrees(g, uses, a, b, u);
    }
    InheritedSame(g.ups[n], a, b);
    SameLeaving(uses[n], Entering(uses[n], g.ups[n], a));
  }

  lemma SameLeaving(d: Descriptor, into: Flow)
    requires d.registered && (d.kind.Ordinary? || d.subs == [])
    ensures Leaving(d, into) == EditorLeaving(d, into)
  {
    hide AfterProduces;
    if d.subs == [] {
      NoSubs(d, AfterProduces(d, into));
      NoSubs(d, AfterKind(d, AfterProduces(d, into)));
    }
  }

  lemma NoSubs(d: Descriptor, into: Flow)
    requires d.subs == []
    ensures AfterSubs(d, into) == into
  {
    var after := AfterSubs(d, into);
    SameCert(after.cert, into.cert);
  }

  /** With a sub-plugin on a require node they differ: the validator adds its fields after the narrowing, the editor
    before. */
  lemma OrderMatters()
    ensures exists d: Descriptor, into: Flow ::
      d.registered && d.kind.Require? && Leaving(d, into) != EditorLeaving(d, into)
  {
    hide Leaving, EditorLeaving;
    var d := Descriptor(true, Processor, {}, [], [], [], Require(["x"]), [SubPlugin(["y"], [])], NO_PORT);
    var into := Flow({}, Cert({}, {}, {}, {}, {Undecided}));
    assert RequireFields(["x"]) == ["x"] && SetOf(["x"]) == {"x"};
    NarrowsBefore(d, into);
    NarrowsAfter(d, into);
    assert "y" !in Leaving(d, into).cert.rejected && "y" in EditorLeaving(d, into).cert.rejected;
  }

  lemma NarrowsBefore(d: Descriptor, into: Flow)
    requires d.role.Processor? && d.inputStates == {} && d.produces == d.mayProduce == [] &&
      d.subs == [SubPlugin(["y"], [])]
    requires d.kind.Require? && RequireFields(d.kind.fields) == ["x"] && into.cert == Cert({}, {}, {}, {}, {Undecided})
    ensures "y" !in Leaving(d, into).cert.rejected
  {
    hide Cert.Effective, Cert.Added;
    var p := AfterProduces(d, into);
    assert SetOf([]) == {};
    assert p.cert == into.cert;
    EffectivePassing(p.cert);
    assert "y" !in AfterKind(d, p).cert.rejected;
    assert Leaving(d, into).cert.At(Rejected) == AfterKind(d, p).cert.At(Rejected);
  }

  lemma NarrowsAfter(d: Descriptor, into: Flow)
    requires d.role.Processor? && d.inputStates == {} && d.produces == d.mayProduce == [] &&
      d.subs == [SubPlugin(["y"], [])]
    requires d.kind.Require? && RequireFields(d.kind.fields) == ["x"] && into.cert == Cert({}, {}, {}, {}, {Undecided})
    requires d.registered && SetOf(["x"]) == {"x"}
    ensures "y" in EditorLeaving(d, into).cert.rejected
  {
    hide Cert.Effective, Cert.Added;
    var p := AfterProduces(d, into);
    assert SetOf([]) == {};
    var q := AfterSubs(d, p);
    assert SubFields(d.subs) == {"y"};
    assert p.cert == into.cert;
    assert Undecided in ProducingStates(d) * p.cert.populated && Accepted !in p.cert.populated;
    assert q.cert.At(Undecided) == {"y"} && q.cert.populated == {Undecided};
    EffectivePassing(q.cert);
    assert q.cert.NewlyRejected("x") == {"y"};
    assert AfterKind(d, q).cert.rejected == {"y"};
  }

  lemma {:induction false} InheritedSame(ups: seq<NodeID>, a: map<NodeID, Flow>, b: map<NodeID, Flow>)
    requires forall u :: u in ups ==> FlowAt(a, u) == FlowAt(b, u)
    ensures Inherited(ups, a) == Inherited(ups, b)
  {
    if |ups| > 1 {
      InheritedSame(ups[..|ups| - 1], a, b);
    }
  }

  // --- What a node is checked against ---

  /** The fields certain of what the node is called with, or would be if its states were not unreachable. */
  function CertainFor(d: Descriptor, into: Flow): set<Field> {
    var effective := into.cert.Effective(InputStates(d));
    if effective == {} && into.cert.populated != {} && into.cert.populated * InputStates(d) == {} then
      into.cert.Effective(into.cert.populated * PASSING)
    else effective
  }
}
