/**
  Fields along the paths of a graph: where a field can come from, and where it
  is no longer certain because a filter has rejected what lacks it.
 */
module FieldPaths {
  import opened Graph
  import opened Entries
  import opened Dataflow
  import opened StateCert
  import opened CertMeaning
  import opened FieldFlow
  import opened Validate
  import opened Soundness
  import FilterPlugins

  // --- Where a field can come from ---

  predicate Takes(r: Rule, f: Field) { !r.AcceptRule? && f in r.removes }

  /** No rule of a condition takes the field out of reach. */
  predicate LetsBy(d: Descriptor, f: Field) {
    d.kind.Condition? ==> forall r :: r in d.kind.rules ==> !Takes(r, f)
  }

  predicate SubSets(d: Descriptor, f: Field) {
    exists s :: s in d.subs && (f in s.produces || f in s.mayProduce)
  }

  predicate Names(d: Descriptor, f: Field) { d.kind.Require? && f != "" && f in d.kind.fields }

  /** The node can set the field itself: a sub-plugin does, or the plugin, or a require node asks for it. */
  predicate Gives(d: Descriptor, f: Field) {
    SubSets(d, f) || (LetsBy(d, f) && (f in d.produces || f in d.mayProduce || Names(d, f)))
  }

  predicate Passes(d: Descriptor, f: Field) { LetsBy(d, f) && f !in d.port.removes }

  /** A path from a node that can set the field, through nodes that let it by. */
  ghost predicate Supplies(g: Dag, uses: map<NodeID, Descriptor>, path: seq<NodeID>, f: Field) {
    path != [] &&
    var n := path[|path| - 1];
    n in g.ups && n in uses && uses[n].registered &&
    if |path| == 1 then Gives(uses[n], f)
    else path[|path| - 2] in g.ups[n] && Passes(uses[n], f) && Supplies(g, uses, path[..|path| - 1], f)
  }

  lemma {:induction false} SubReachIs(subs: seq<SubPlugin>, f: Field)
    ensures f in SubReach(subs) <==> exists s :: s in subs && (f in s.produces || f in s.mayProduce)
  {
    if subs != [] {
      var n := |subs| - 1;
      SubReachIs(subs[..n], f);
      assert subs == subs[..n] + [subs[n]];
    }
  }

  lemma {:induction false} RulesReach(rules: seq<Rule>, into: Flow, f: Field)
    ensures f in AfterRules(rules, into).reach <==> f in into.reach && forall r :: r in rules ==> !Takes(r, f)
  {
    hide AfterRule;
    if rules != [] {
      var n := |rules| - 1;
      RulesReach(rules[..n], into, f);
      assert rules == rules[..n] + [rules[n]];
      RuleReach(rules[n], AfterRules(rules[..n], into), f);
    }
  }

  lemma RuleReach(r: Rule, into: Flow, f: Field)
    ensures f in AfterRule(r, into).reach <==> f in into.reach && !Takes(r, f)
  {
    hide Cert.Narrowed, Cert.Promoted;
  }

  lemma {:induction false} RequireNames(fields: seq<Field>, f: Field)
    ensures f in SetOf(RequireFields(fields)) <==> f in fields && f != ""
  {
    if fields != [] {
      var n := |fields| - 1;
      RequireNames(fields[..n], f);
      assert fields == fields[..n] + [fields[n]];
    }
  }

  /** What is in reach behind a node: what it can set, and what arrives and is let by. */
  lemma NodeReach(d: Descriptor, ups: seq<NodeID>, flows: map<NodeID, Flow>, f: Field)
    ensures f in Leaving(d, Entering(d, ups, flows)).reach <==>
      Gives(d, f) || (f in Inherited(ups, flows).reach && Passes(d, f))
  {
    hide Cert.Narrowed, Cert.Promoted, Cert.Swapped, Cert.Added, Cert.Produced, AfterRules, Inherited;
    var into := Entering(d, ups, flows);
    SubReachIs(d.subs, f);
    PortReach(d.port, Inherited(ups, flows), f);
    var p := AfterProduces(d, into);
    if d.kind.Condition? { RulesReach(d.kind.rules, p, f); }
    if d.kind.Require? { RequireNames(d.kind.fields, f); }
  }

  lemma PortReach(port: Port, into: Flow, f: Field)
    ensures f in AfterPort(port, into).reach <==> f in into.reach && f !in port.removes
  {
    hide Cert.Narrowed;
  }

  lemma {:induction false} InheritedReach(ups: seq<NodeID>, flows: map<NodeID, Flow>, f: Field)
    ensures f in Inherited(ups, flows).reach <==> exists u :: u in ups && f in FlowAt(flows, u).reach
  {
    hide FlowAt;
    if |ups| == 1 {
      assert ups[0] in ups;
    } else if |ups| > 1 {
      var n := |ups| - 1;
      InheritedReach(ups[..n], flows, f);
      assert ups == ups[..n] + [ups[n]];
      assert ups[n] in ups;
    }
  }

  /** A field is in reach behind a node exactly when a path supplies it. */
  lemma {:induction false} ReachIff(g: Dag, uses: map<NodeID, Descriptor>, flows: map<NodeID, Flow>, n: NodeID,
                                    f: Field)
    requires Built(g) && IsFlow(g, uses, flows) && n in g.ups
    ensures f in FlowAt(flows, n).reach <==>
      exists path :: path != [] && path[|path| - 1] == n && Supplies(g, uses, path, f)
    decreases IndexOf(g.order, n)
  {
    hide Built, Entering, Leaving, Inherited, Gives, Passes;
    if n in uses && uses[n].registered {
      NodeReach(uses[n], g.ups[n], flows, f);
      InheritedReach(g.ups[n], flows, f);
      forall u | u in g.ups[n]
        ensures u in g.ups
        ensures f in FlowAt(flows, u).reach <==>
          exists path :: path != [] && path[|path| - 1] == u && Supplies(g, uses, path, f)
      {
        EdgeForward(g, n, u);
        ReachIff(g, uses, flows, u, f);
      }
      if f in FlowAt(flows, n).reach {
        SomeSupply(g, uses, flows, n, f);
      }
      if path :| path != [] && path[|path| - 1] == n && Supplies(g, uses, path, f) {
        if |path| > 1 {
          var front := path[..|path| - 1];
          assert front[|front| - 1] in g.ups[n];
        }
      }
    }
  }

  lemma SomeSupply(g: Dag, uses: map<NodeID, Descriptor>, flows: map<NodeID, Flow>, n: NodeID, f: Field)
    requires n in g.ups && n in uses && uses[n].registered
    requires Gives(uses[n], f) || (Passes(uses[n], f) && exists u :: u in g.ups[n] && f in FlowAt(flows, u).reach)
    requires forall u :: u in g.ups[n] && f in FlowAt(flows, u).reach ==>
      exists path :: path != [] && path[|path| - 1] == u && Supplies(g, uses, path, f)
    ensures exists path :: path != [] && path[|path| - 1] == n && Supplies(g, uses, path, f)
  {
    hide Gives, Passes, FlowAt;
    if Gives(uses[n], f) {
      assert Supplies(g, uses, [n], f);
    } else {
      var u :| u in g.ups[n] && f in FlowAt(flows, u).reach;
      var path :| path != [] && path[|path| - 1] == u && Supplies(g, uses, path, f);
      var longer := path + [n];
      assert longer[..|longer| - 1] == path && longer[|longer| - 2] == u;
      assert Supplies(g, uses, longer, f);
    }
  }

  // --- What is claimed of an entry that require rejects ---

  /** Of the fields asked for, those claimed of entries in this one's state are not missing from it. */
  ghost predicate ClaimsFilled(c: Cert, i: Item, fields: seq<Field>) {
    forall f :: f in fields && f in c.At(i.state) ==> !IsMissing(i.Get(f).0)
  }

  /** The validator's value behind a require node is right about what require does to a passing entry it rejects. */
  ghost predicate RejectedRight(d: Descriptor, into: Flow, fields: seq<Field>) {
    forall i :: Describes(into.cert, i) && i.state in PASSING && Lacks(i, fields) ==>
      ClaimsFilled(Leaving(d, into).cert, FilterPlugins.Filtered(fields, i), fields)
  }

  /** Certain of all passing entries, and of the rejected ones if there are any. */
  ghost predicate CertainOfAll(c: Cert, f: Field) {
    && PASSING * c.populated != {} && (forall s :: s in PASSING * c.populated ==> f in c.At(s))
    && (Rejected in c.populated ==> f in c.rejected)
  }

  /**
    Only the first of the fields is taken out of what is certain of rejected
    entries. So an entry rejected for want of a field is not taken to have it, if
    and only if no other of the fields was certain of every entry before.
   */
  lemma RejectedRightIff(d: Descriptor, into: Flow, fields: seq<Field>)
    requires Registered(d) && d.kind == Require(fields) && "" !in fields && fields != []
    ensures RejectedRight(d, into, fields) <==>
      forall f :: f in fields && f != fields[0] ==> !CertainOfAll(into.cert, f)
  {
    hide Describes, Leaving, Lacks, Cert.Narrowed;
    var c, after := into.cert, Leaving(d, into).cert;
    RejectedBucket(d, into, fields);
    forall f | f in fields && f != fields[0] && CertainOfAll(c, f) ensures !RejectedRight(d, into, fields) {
      var s :| s in PASSING * c.populated;
      var i := Bare(s, c.At(s));
      BareDescribed(c, s);
      MissingBare(s, c.At(s), fields, f);
      assert !ClaimsFilled(after, FilterPlugins.Filtered(fields, i), fields);
    }
  }

  /** What a node on one field rejects is never taken to have it. */
  lemma RejectedLacksOne(d: Descriptor, into: Flow, f: Field)
    requires Registered(d) && d.kind == Require([f]) && f != ""
    ensures RejectedRight(d, into, [f])
  {
    hide RejectedRight;
    RejectedRightIff(d, into, [f]);
  }

  /** With two fields that a source sets, what lacks the second is still taken to have it. */
  lemma SecondStaysClaimed(d: Descriptor)
    requires Registered(d) && d.kind == Require(["x", "y"])
    ensures !RejectedRight(d, Flow({"x", "y"}, Cert({"x", "y"}, {}, {}, {}, {Undecided})), ["x", "y"])
  {
    hide RejectedRight, Registered;
    var into := Flow({"x", "y"}, Cert({"x", "y"}, {}, {}, {}, {Undecided}));
    RejectedRightIff(d, into, ["x", "y"]);
    assert Undecided in PASSING * into.cert.populated;
    assert "y" in ["x", "y"] && CertainOfAll(into.cert, "y");
  }

  lemma MissingBare(s: State, has: set<Field>, fields: seq<Field>, f: Field)
    requires f in fields
    ensures var i := Bare(s, has);
      && i.state == s && Lacks(i, fields)
      && FilterPlugins.Filtered(fields, i).state == Rejected && IsMissing(FilterPlugins.Filtered(fields, i).Get(f).0)
  {
    var i := Bare(s, has);
    var k :| 0 <= k < |fields| && fields[k] == f;
    assert IsMissing(i.Get(fields[k]).0);
    assert i.(state := Rejected).Get(f) == i.Get(f);
  }

  lemma {:induction false} NoneBlank(fields: seq<Field>)
    requires "" !in fields
    ensures RequireFields(fields) == fields
  {
    if fields != [] {
      NoneBlank(fields[..|fields| - 1]);
    }
  }

  /** The Rejected bucket behind a require node, as far as its own fields go, when there is something to reject. */
  lemma RejectedBucket(d: Descriptor, into: Flow, fields: seq<Field>)
    requires Registered(d) && d.kind == Require(fields) && "" !in fields && fields != []
    ensures PASSING * into.cert.populated != {} ==>
      forall f :: f in Leaving(d, into).cert.At(Rejected) <==> f != fields[0] && CertainOfAll(into.cert, f)
    ensures PASSING * into.cert.populated != {} ==> Rejected in Leaving(d, into).cert.populated
    ensures PASSING * into.cert.populated == {} ==> forall i :: Describes(into.cert, i) ==> i.state !in PASSING
  {
    hide Leaving, Describes, Cert.Narrowed, CertainOfAll;
    var c := into.cert;
    PlainLeaving(d, into);
    NoneBlank(fields);
    assert fields[0] in SetOf(fields);
    if PASSING * c.populated != {} {
      NarrowedAt(c, SetOf(fields), fields[0]);
      forall f ensures f in Leaving(d, into).cert.At(Rejected) <==> f != fields[0] && CertainOfAll(c, f) {
        CertainIsEffective(c, f);
      }
    } else {
      forall i | Describes(c, i) ensures i.state !in PASSING {
        DescribedWhere(c, i);
      }
    }
  }

  lemma DescribedWhere(c: Cert, i: Item)
    requires Describes(c, i)
    ensures i.state in c.populated && (i.state in PASSING ==> i.state in PASSING * c.populated)
  {
  }

  lemma CertainIsEffective(c: Cert, f: Field)
    requires PASSING * c.populated != {}
    ensures CertainOfAll(c, f) <==> f in c.Effective(PASSING) && (Rejected in c.populated ==> f in c.At(Rejected))
  {
    var s :| s in PASSING * c.populated;
    assert f in c.At(s) ==> f in c.undecided + c.accepted + c.rejected + c.failed;
  }

  // --- Where what was rejected is revived ---

  /** There may be entries in this state, and none of these fields is certain of them. */
  ghost predicate Open(c: Cert, s: State, fields: set<Field>) { s in c.populated && c.At(s) !! fields }

  function Infers(r: Rule): set<Field> {
    match r
    case AcceptRule(narrows) => SetOf(narrows)
    case RejectRule(_, promotes) => SetOf(promotes)
    case BothRule(narrows, _, promotes) => SetOf(narrows) + SetOf(promotes)
  }

  /** A node that neither sets nor infers any of these fields of entries in this state. */
  ghost predicate LeavesOpen(d: Descriptor, s: State, fields: set<Field>) {
    && d.registered && !d.role.Source?
    && (s in InputStates(d) ==> SetOf(d.produces) !! fields)
    && (StateAfter(d, s) in InputStates(d) ==> SubFields(d.subs) !! fields)
    && (s in PASSING ==>
         && SetOf(d.port.narrows) !! fields
         && (d.kind.Require? ==> SetOf(d.kind.fields) !! fields)
         && (d.kind.Condition? ==> forall r :: r in d.kind.rules ==> Infers(r) !! fields))
  }

  /** The state in which entries in state s leave a node: another one behind swap_state. */
  function StateAfter(d: Descriptor, s: State): State {
    if d.kind.SwapState? && |d.kind.names| == 2 && ParseStateName(d.kind.names[0]).Known? &&
      ParseStateName(d.kind.names[1]).Known?
    then Flip(ParseStateName(d.kind.names[0]).state, ParseStateName(d.kind.names[1]).state, s)
    else s
  }

  /** Entries that leave path[0] in state s leave its last node in state t, and no node on the way sets the fields. */
  ghost predicate Conveys(g: Dag, uses: map<NodeID, Descriptor>, path: seq<NodeID>, s: State, fields: set<Field>,
                          t: State)
  {
    path != [] &&
    var n := path[|path| - 1];
    n in g.ups && n in uses && uses[n].registered &&
    if |path| == 1 then s == t
    else
      && path[|path| - 2] in g.ups[n]
      && exists between :: Conveys(g, uses, path[..|path| - 1], s, fields, between)
           && LeavesOpen(uses[n], between, fields) && t == StateAfter(uses[n], between)
  }

  lemma {:induction false} OpenMerged(ups: seq<NodeID>, flows: map<NodeID, Flow>, u: NodeID, s: State,
                                      fields: set<Field>)
    requires u in ups && Open(FlowAt(flows, u).cert, s, fields)
    ensures Open(Inherited(ups, flows).cert, s, fields)
  {
    hide FlowAt;
    if |ups| > 1 {
      var n := |ups| - 1;
      var rest, last := Inherited(ups[..n], flows).cert, FlowAt(flows, ups[n]).cert;
      if u in ups[..n] { OpenMerged(ups[..n], flows, u, s, fields); }
      assert Open(rest, s, fields) || Open(last, s, fields);
      assert rest.Intersection(last).At(s) == rest.Meeting(last, s);
    }
  }

  lemma OpenNarrowed(c: Cert, promotes: set<Field>, absent: Field, s: State, fields: set<Field>)
    requires Open(c, s, fields) && (s in PASSING ==> promotes !! fields)
    ensures Open(c.Narrowed(promotes, absent), s, fields)
  {
    hide Cert.Narrowed, Cert.Effective;
    if promotes == {} || PASSING * c.populated == {} {
      NarrowedNothing(c, absent);
    } else {
      NarrowedAt(c, promotes, absent);
    }
  }

  lemma OpenRemoved(c: Cert, removes: set<Field>, s: State, fields: set<Field>)
    requires Open(c, s, fields)
    ensures Open(c.Removed(removes), s, fields)
  {
  }

  lemma OpenPort(port: Port, into: Flow, s: State, fields: set<Field>)
    requires Open(into.cert, s, fields) && (s in PASSING ==> SetOf(port.narrows) !! fields)
    ensures Open(AfterPort(port, into).cert, s, fields)
  {
    hide Open, Cert.Narrowed, Cert.Removed;
    var added := Fresh(port.narrows, into.reach, into.cert.accepted);
    OpenNarrowed(into.cert, added, "", s, fields);
    OpenRemoved(into.cert.Narrowed(added, ""), SetOf(port.removes) * into.reach, s, fields);
  }

  lemma OpenRule(r: Rule, into: Flow, s: State, fields: set<Field>)
    requires Open(into.cert, s, fields) && (s in PASSING ==> Infers(r) !! fields)
    ensures Open(AfterRule(r, into).cert, s, fields)
  {
    hide Open, AfterAccept, AfterReject;
    match r
    case AcceptRule(narrows) => OpenAccept(narrows, into, s, fields);
    case RejectRule(removes, promotes) => OpenReject(removes, promotes, into, s, fields);
    case BothRule(narrows, removes, promotes) =>
      OpenAccept(narrows, into, s, fields);
      OpenReject(removes, promotes, AfterAccept(narrows, into), s, fields);
  }

  lemma OpenAccept(narrows: seq<Field>, into: Flow, s: State, fields: set<Field>)
    requires Open(into.cert, s, fields) && (s in PASSING ==> SetOf(narrows) !! fields)
    ensures Open(AfterAccept(narrows, into).cert, s, fields)
  {
  }

  lemma OpenReject(removes: seq<Field>, promotes: seq<Field>, into: Flow, s: State, fields: set<Field>)
    requires Open(into.cert, s, fields) && (s in PASSING ==> SetOf(promotes) !! fields)
    ensures Open(AfterReject(removes, promotes, into).cert, s, fields)
  {
    hide Open, Cert.Narrowed, Cert.Removed, Least;
    var left := Without(into, SetOf(removes) * into.reach);
    OpenRemoved(into.cert, SetOf(removes) * into.reach, s, fields);
    var added := Fresh(promotes, left.reach, Reference(left.cert));
    OpenNarrowed(left.cert, added, Least(promotes, added), s, fields);
  }

  lemma {:induction false} OpenRules(rules: seq<Rule>, into: Flow, s: State, fields: set<Field>)
    requires Open(into.cert, s, fields) && (s in PASSING ==> forall r :: r in rules ==> Infers(r) !! fields)
    ensures Open(AfterRules(rules, into).cert, s, fields)
  {
    hide Open, AfterRule;
    if rules != [] {
      var n := |rules| - 1;
      OpenRules(rules[..n], into, s, fields);
      OpenRule(rules[n], AfterRules(rules[..n], into), s, fields);
    }
  }

  lemma OpenProduced(d: Descriptor, into: Flow, s: State, fields: set<Field>)
    requires Open(into.cert, s, fields) && !d.role.Source? && (s in InputStates(d) ==> SetOf(d.produces) !! fields)
    ensures Open(AfterProduces(d, into).cert, s, fields)
  {
    hide InputStates;
  }

  lemma OpenKind(d: Descriptor, into: Flow, s: State, fields: set<Field>)
    requires Open(into.cert, s, fields) && LeavesOpen(d, s, fields)
    ensures Open(AfterKind(d, into).cert, StateAfter(d, s), fields)
  {
    hide Cert.Narrowed, AfterRules, InputStates, SubFields, ParseStateName;
    match d.kind
    case Ordinary =>
    case Require(names) =>
      RequireFieldsIn(names);
      var named := RequireFields(names);
      if named != [] { OpenNarrowed(into.cert, SetOf(named), named[0], s, fields); }
    case SwapState(_) =>
    case Condition(rules) => OpenRules(rules, into, s, fields);
  }

  lemma OpenSubs(d: Descriptor, into: Flow, s: State, fields: set<Field>)
    requires Open(into.cert, s, fields) && !d.role.Source? && (s in InputStates(d) ==> SubFields(d.subs) !! fields)
    ensures Open(AfterSubs(d, into).cert, s, fields)
  {
    hide InputStates, SubFields;
  }

  /** What was open before a node that leaves it open is open behind it. */
  lemma NodeOpen(d: Descriptor, ups: seq<NodeID>, flows: map<NodeID, Flow>, u: NodeID, s: State, fields: set<Field>)
    requires u in ups && Open(FlowAt(flows, u).cert, s, fields) && LeavesOpen(d, s, fields)
    ensures Open(Leaving(d, Entering(d, ups, flows)).cert, StateAfter(d, s), fields)
  {
    hide Open, Inherited, AfterPort, AfterProduces, AfterKind, AfterSubs, StateAfter, InputStates;
    OpenMerged(ups, flows, u, s, fields);
    OpenPort(d.port, Inherited(ups, flows), s, fields);
    var into := Entering(d, ups, flows);
    OpenProduced(d, into, s, fields);
    OpenKind(d, AfterProduces(d, into), s, fields);
    OpenSubs(d, AfterKind(d, AfterProduces(d, into)), StateAfter(d, s), fields);
  }

  lemma {:induction false} Conveyed(g: Dag, uses: map<NodeID, Descriptor>, flows: map<NodeID, Flow>,
                                    path: seq<NodeID>, s: State, fields: set<Field>, t: State)
    requires IsFlow(g, uses, flows) && Conveys(g, uses, path, s, fields, t)
    requires Open(FlowAt(flows, path[0]).cert, s, fields)
    ensures Open(FlowAt(flows, path[|path| - 1]).cert, t, fields)
  {
    hide Open, Leaving, Entering, LeavesOpen, StateAfter;
    if |path| > 1 {
      var n := path[|path| - 1];
      var front := path[..|path| - 1];
      var between :| Conveys(g, uses, front, s, fields, between)
        && LeavesOpen(uses[n], between, fields) && t == StateAfter(uses[n], between);
      Conveyed(g, uses, flows, front, s, fields, between);
      NodeOpen(uses[n], g.ups[n], flows, front[|front| - 1], between, fields);
    }
  }

  /** A node that takes entries of which none of the fields is certain, and requires one of them, is found wanting. */
  lemma OpenIsFound(g: Dag, uses: map<NodeID, Descriptor>, flows: map<NodeID, Flow>, u: NodeID, n: NodeID, t: State,
                    group: seq<Field>)
    requires n in g.ups && n in uses && uses[n].registered && u in g.ups[n] && group in uses[n].needs
    requires Open(FlowAt(flows, u).cert, t, SetOf(group)) && t in InputStates(uses[n])
    requires t in PASSING ==> SetOf(uses[n].port.narrows) !! SetOf(group)
    ensures Applies(g, uses, flows, NotProduced(n, group)) || Applies(g, uses, flows, NotCertain(n, group))
  {
    hide Inherited, AfterPort, InputStates;
    var d := uses[n];
    OpenMerged(g.ups[n], flows, u, t, SetOf(group));
    OpenPort(d.port, Inherited(g.ups[n], flows), t, SetOf(group));
    var c := Entering(d, g.ups[n], flows).cert;
    assert t in InputStates(d) * c.populated && t in c.populated * InputStates(d);
    forall f | f in group ensures f !in CertainFor(d, Entering(d, g.ups[n], flows)) {
      assert f in SetOf(group);
    }
  }

  /**
    A graph that revives what a require node has rejected is warned about: if
    entries rejected for want of f can come, by way of swap_state nodes and others
    that do not set f, to a node that takes them and requires f, the validator
    finds an error or a warning there.
   */
  lemma RevivedIsWarned(g: Dag, uses: map<NodeID, Descriptor>, flows: map<NodeID, Flow>, path: seq<NodeID>, t: State,
                        n: NodeID, errs: seq<Finding>, warnings: seq<Finding>)
    requires IsFlow(g, uses, flows) && Found(g, uses, flows, g.ups.Keys, errs, warnings)
    requires path != [] && path[0] in g.ups && path[0] in uses && uses[path[0]].kind.Require?
    requires var d := uses[path[0]];
      && Registered(d) && RequireFields(d.kind.fields) != []
      && PASSING * Entering(d, g.ups[path[0]], flows).cert.populated != {}
      && Conveys(g, uses, path, Rejected, {RequireFields(d.kind.fields)[0]}, t)
    requires n in g.ups && n in uses && uses[n].registered && path[|path| - 1] in g.ups[n] && t in InputStates(uses[n])
    requires var f := RequireFields(uses[path[0]].kind.fields)[0];
      [f] in uses[n].needs && (t in PASSING ==> f !in uses[n].port.narrows)
    ensures var f := RequireFields(uses[path[0]].kind.fields)[0];
      NotProduced(n, [f]) in errs || NotCertain(n, [f]) in warnings
  {
    hide Open, Leaving, Entering, CertainFor, Conveys, InputStates, Registered;
    var d := uses[path[0]];
    var f, into := RequireFields(d.kind.fields)[0], Entering(d, g.ups[path[0]], flows);
    assert d.registered && path[0] in flows by { FirstRegistered(g, uses, path, t, f); }
    RejectedOpen(d, into);
    Conveyed(g, uses, flows, path, Rejected, {f}, t);
    assert SetOf([f]) == {f};
    OpenIsFound(g, uses, flows, path[|path| - 1], n, t, [f]);
  }

  lemma {:induction false} FirstRegistered(g: Dag, uses: map<NodeID, Descriptor>, path: seq<NodeID>, t: State, f: Field)
    requires Conveys(g, uses, path, Rejected, {f}, t)
    ensures path[0] in g.ups && path[0] in uses && uses[path[0]].registered
  {
    hide LeavesOpen, StateAfter;
    if |path| > 1 {
      var between :| Conveys(g, uses, path[..|path| - 1], Rejected, {f}, between);
      FirstRegistered(g, uses, path[..|path| - 1], between, f);
    }
  }

  lemma RejectedOpen(d: Descriptor, into: Flow)
    requires Registered(d) && d.kind.Require? && RequireFields(d.kind.fields) != []
    requires PASSING * into.cert.populated != {}
    ensures Open(Leaving(d, into).cert, Rejected, {RequireFields(d.kind.fields)[0]})
  {
    hide Leaving, Cert.Effective, Cert.Narrowed;
    var named := RequireFields(d.kind.fields);
    PlainLeaving(d, into);
    assert named[0] in SetOf(named);
    NarrowedAt(into.cert, SetOf(named), named[0]);
    FieldNotBlank(d.kind.fields, 0);
  }

  lemma {:induction false} FieldNotBlank(fields: seq<Field>, k: nat)
    requires k < |RequireFields(fields)|
    ensures RequireFields(fields)[k] != ""
  {
    if k < |RequireFields(fields[..|fields| - 1])| {
      FieldNotBlank(fields[..|fields| - 1], k);
    }
  }

  // --- The example of the documentation ---

  const FEED: Descriptor := Descriptor(true, Source, {}, [], ["x"], [], Ordinary, [], NO_PORT)
  const NEEDS_X: Descriptor := Descriptor(true, Processor, {}, [], [], [], Require(["x"]), [], NO_PORT)
  const REVIVE: Descriptor :=
    Descriptor(true, Processor, ALL, [], [], [], SwapState(["rejected", "accepted"]), [], NO_PORT)
  const READS_X: Descriptor := Descriptor(true, Processor, {}, [["x"]], [], [], Ordinary, [], NO_PORT)

  const REVIVING: Dag := Dag(map["f" := [], "r" := ["f"], "s" := ["r"], "p" := ["s"]], ["f", "r", "s", "p"])
  const REVIVING_USES: map<NodeID, Descriptor> := map["f" := FEED, "r" := NEEDS_X, "s" := REVIVE, "p" := READS_X]

  /** A source that sets x, require on x, swap_state of rejected and accepted, and a processor that requires x. */
  lemma RevivingWarned(flows: map<NodeID, Flow>, errs: seq<Finding>, warnings: seq<Finding>)
    requires IsFlow(REVIVING, REVIVING_USES, flows)
    requires Found(REVIVING, REVIVING_USES, flows, REVIVING.ups.Keys, errs, warnings)
    ensures NotProduced("p", ["x"]) in errs || NotCertain("p", ["x"]) in warnings
  {
    hide IsFlow, Found, Entering;
    assert RequireFields(["x"]) == ["x"];
    FeedPasses(flows);
    var path := ["r", "s"];
    assert path[..1] == ["r"];
    assert Conveys(REVIVING, REVIVING_USES, ["r"], Rejected, {"x"}, Rejected);
    assert SetOf([]) == {};
    assert LeavesOpen(REVIVE, Rejected, {"x"}) && StateAfter(REVIVE, Rejected) == Accepted;
    assert Conveys(REVIVING, REVIVING_USES, path, Rejected, {"x"}, Accepted);
    RevivedIsWarned(REVIVING, REVIVING_USES, flows, path, Accepted, "p", errs, warnings);
  }

  lemma FeedPasses(flows: map<NodeID, Flow>)
    requires IsFlow(REVIVING, REVIVING_USES, flows)
    ensures PASSING * Entering(NEEDS_X, ["f"], flows).cert.populated != {}
  {
    hide AfterPort, Leaving;
    NoPort(Inherited(["f"], flows));
    assert flows["f"] == Leaving(FEED, Entering(FEED, [], flows));
    FeedMarks(Entering(FEED, [], flows));
    assert Undecided in PASSING * flows["f"].cert.populated;
  }

  lemma FeedMarks(into: Flow)
    ensures Undecided in Leaving(FEED, into).cert.populated
  {
  }
}
