/** The validator's walk over a graph (internal/dag/validate.go), and the editor's (internal/dag/fieldsets.go). */
module Validate {
  import opened Graph
  import opened Entries
  import opened Dataflow
  import opened StateCert
  import opened FieldFlow
  import Layers

  datatype Finding =
    | UnknownPlugin(node: NodeID)
    | SourceHasUpstreams(node: NodeID)
    | NeedsUpstream(node: NodeID)
    | SinkFeeds(node: NodeID, consumer: NodeID)
    | NotProduced(node: NodeID, group: seq<Field>)  // no upstream produces any field of a Requires group
    | NotCertain(node: NodeID, group: seq<Field>)   // some entries may come without

  datatype Verdict = Crash | Cyclic | Checked(errs: seq<Finding>, warnings: seq<Finding>)

  // --- What the findings mean ---

  ghost predicate Meets(fields: set<Field>, group: seq<Field>) { exists f :: f in group && f in fields }

  ghost predicate Applies(g: Dag, uses: map<NodeID, Descriptor>, flows: map<NodeID, Flow>, f: Finding) {
    var n := f.node;
    n in g.ups && n in uses &&
    var d, into := uses[n], Entering(uses[n], g.ups[n], flows);
    if !d.registered then f.UnknownPlugin?
    else match f
      case UnknownPlugin(_) => false
      case SourceHasUpstreams(_) => d.role.Source? && g.ups[n] != []
      case NeedsUpstream(_) => !d.role.Source? && g.ups[n] == []
      case SinkFeeds(_, m) => d.role.Sink? && m in Downs(g, n) && FeedsNonSink(uses, m)
      case NotProduced(_, group) => group in d.needs && !Meets(into.reach, group)
      case NotCertain(_, group) => group in d.needs && Meets(into.reach, group) && !Meets(CertainFor(d, into), group)
  }

  /**
    A node on an unknown plugin leaves the zero value, which has no buckets to
    write to. Reading it is harmless; a sole consumer that writes to a copy of
    it brings the validator down.
   */
  predicate Crashes(g: Dag, uses: map<NodeID, Descriptor>, n: NodeID) {
    && n in g.ups && n in uses && uses[n].registered && |g.ups[n]| == 1
    && g.ups[n][0] in uses && !uses[g.ups[n][0]].registered
    && WritesBuckets(uses[n])
  }

  predicate WritesBuckets(d: Descriptor) {
    || d.produces != []
    || (d.role.Source? && SubsWrite(d))
    || KindCrashes(d, SetOf(d.mayProduce))
    || (KindMarks(d) && Accepted in ProducingStates(d) && SubsWrite(d))
  }

  predicate SubsWrite(d: Descriptor) { exists s :: s in d.subs && s.produces != [] }

  predicate KindCrashes(d: Descriptor, reach: set<Field>) {
    d.kind.Condition? && RulesCrash(d.kind.rules, reach, false)
  }

  /** An accept rule marks Accepted populated, whether there is a bucket or not. */
  predicate KindMarks(d: Descriptor) { d.kind.Condition? && AnyAccepts(d.kind.rules) }

  predicate AnyAccepts(rules: seq<Rule>) { exists r :: r in rules && !r.RejectRule? }

  /** Rules over nil buckets, `marked` telling whether Accepted is populated. */
  predicate RulesCrash(rules: seq<Rule>, reach: set<Field>, marked: bool) {
    rules != [] &&
    match rules[0]
      case AcceptRule(narrows) => AcceptWrites(narrows, reach) || RulesCrash(rules[1..], reach, true)
      case RejectRule(removes, promotes) =>
        RejectWrites(removes, promotes, reach, marked) || RulesCrash(rules[1..], reach - SetOf(removes), marked)
      case BothRule(narrows, removes, promotes) =>
        || AcceptWrites(narrows, reach) || RejectWrites(removes, promotes, reach, true)
        || RulesCrash(rules[1..], reach - SetOf(removes), true)
  }

  predicate AcceptWrites(narrows: seq<Field>, reach: set<Field>) { exists f :: f in narrows && f in reach }

  predicate RejectWrites(removes: seq<Field>, promotes: seq<Field>, reach: set<Field>, marked: bool) {
    marked && exists f :: f in promotes && f in reach && f !in removes
  }

  // --- One node ---

  /** The validator's maps hold these flows. */
  ghost predicate Stored(reachable: map<NodeID, set<Field>>, certain: map<NodeID, StateCertainty>,
                         flows: map<NodeID, Flow>)
    reads set id | id in certain :: certain[id]
  {
    && reachable.Keys == certain.Keys == flows.Keys
    && forall id :: id in certain ==>
         certain[id].Valid() && certain[id].slots && flows[id] == Flow(reachable[id], certain[id].View())
  }

  /** No buckets at all, though these states may be marked populated. */
  ghost predicate Nilled(cert: StateCertainty, populated: set<State>)
    reads cert
  {
    cert.slots && cert.buckets.Keys == {} && cert.populated == populated
  }

  method InheritReachAndCert(ups: seq<NodeID>, reachable: map<NodeID, set<Field>>,
                             certain: map<NodeID, StateCertainty>, ghost flows: map<NodeID, Flow>)
    returns (reach: set<Field>, cert: StateCertainty)
    requires Stored(reachable, certain, flows)
    ensures fresh(cert) && cert.Valid() && cert.slots && Flow(reach, cert.View()) == Inherited(ups, flows)
    ensures if |ups| == 1 && ups[0] !in certain then reach == {} && Nilled(cert, {}) else cert.Sturdy()
  {
    hide Inherited, Cert.Intersection, Stored;
    reach := {};
    cert := new StateCertainty();
    InheritedNone(flows);
    for i := 0 to |ups|
      invariant fresh(cert) && cert.Valid() && cert.slots && Flow(reach, cert.View()) == Inherited(ups[..i], flows)
      invariant if i == 1 && ups[0] !in certain then reach == {} && Nilled(cert, {}) else cert.Sturdy()
      invariant i == 0 ==> reach == {}
    {
      InheritedNext(ups, flows, i);
      StoredAt(reachable, certain, flows, ups[i]);
      var up;
      if ups[i] in certain {
        reach, up := reach + reachable[ups[i]], certain[ups[i]];
      } else {
        up := new StateCertainty.Zero();
      }
      if i == 0 {
        cert := up.Copy();
      } else {
        cert := cert.Intersect(up);
      }
    }
    assert ups[..|ups|] == ups;
  }

  lemma StoredAt(reachable: map<NodeID, set<Field>>, certain: map<NodeID, StateCertainty>, flows: map<NodeID, Flow>,
                 id: NodeID)
    requires Stored(reachable, certain, flows)
    ensures id in certain <==> id in flows
    ensures id in certain ==>
      id in reachable && certain[id].Valid() && certain[id].slots &&
        flows[id] == Flow(reachable[id], certain[id].View())
  {
  }

  lemma StoredMore(reachable: map<NodeID, set<Field>>, certain: map<NodeID, StateCertainty>, flows: map<NodeID, Flow>,
                   n: NodeID, reach: set<Field>, cert: StateCertainty)
    requires Stored(reachable, certain, flows) && cert.Valid() && cert.slots
    ensures Stored(reachable[n := reach], certain[n := cert], flows[n := Flow(reach, cert.View())])
    ensures certain.Keys == flows.Keys
  {
    hide StateCertainty.View, StateCertainty.Valid;
  }

  lemma InheritedNone(flows: map<NodeID, Flow>)
    ensures Inherited([], flows) == Flow({}, EMPTY)
  {
  }

  lemma InheritedNext(ups: seq<NodeID>, flows: map<NodeID, Flow>, i: nat)
    requires i < |ups|
    ensures Inherited(ups[..i + 1], flows) ==
      var before, last := Inherited(ups[..i], flows), FlowAt(flows, ups[i]);
      Flow(before.reach + last.reach, if i == 0 then last.cert else before.cert.Intersection(last.cert))
  {
    assert ups[..i + 1][..i] == ups[..i];
  }

  method CertainFields(d: Descriptor, cert: StateCertainty, ghost into: Flow) returns (fields: set<Field>)
    requires cert.Valid() && into.cert == cert.View()
    ensures fields == CertainFor(d, into)
  {
    fields := cert.Effective(InputStates(d));
    if fields == {} && cert.populated != {} && cert.populated * InputStates(d) == {} {
      fields := cert.Effective(cert.populated * PASSING);
    }
  }

  method CheckNeeds(n: NodeID, d: Descriptor, reach: set<Field>, certain: set<Field>)
    returns (errs: seq<Finding>, warnings: seq<Finding>)
    ensures forall f :: f in errs <==> f.NotProduced? && f.node == n && f.group in d.needs && !Meets(reach, f.group)
    ensures forall f :: f in warnings <==>
      f.NotCertain? && f.node == n && f.group in d.needs && Meets(reach, f.group) && !Meets(certain, f.group)
  {
    errs, warnings := [], [];
    for k := 0 to |d.needs|
      invariant forall f :: f in errs <==>
        f.NotProduced? && f.node == n && f.group in d.needs[..k] && !Meets(reach, f.group)
      invariant forall f :: f in warnings <==>
        f.NotCertain? && f.node == n && f.group in d.needs[..k] && Meets(reach, f.group) && !Meets(certain, f.group)
    {
      assert d.needs[..k + 1] == d.needs[..k] + [d.needs[k]];
      var group := d.needs[k];
      var reachFound, certFound := false, false;
      for j := 0 to |group|
        invariant reachFound <==> Meets(reach, group[..j])
        invariant certFound <==> Meets(certain, group[..j])
      {
        assert group[..j + 1] == group[..j] + [group[j]];
        if group[j] in reach { reachFound := true; }
        if group[j] in certain { certFound := true; }
      }
      assert group[..|group|] == group;
      if !reachFound {
        errs := errs + [NotProduced(n, group)];
      } else if !certFound {
        warnings := warnings + [NotCertain(n, group)];
      }
    }
    assert d.needs[..|d.needs|] == d.needs;
  }

  method ApplyProduces(d: Descriptor, reach: set<Field>, cert: StateCertainty) returns (crashed: bool, more: set<Field>)
    requires cert.Valid() && cert.slots
    modifies cert
    ensures !crashed ==>
      cert.Valid() && cert.slots && Flow(more, cert.View()) == AfterProduces(d, Flow(reach, old(cert.View())))
    ensures old(cert.Sturdy()) ==> !crashed && cert.Sturdy()
    ensures old(Nilled(cert, {})) ==>
      (crashed <==> d.produces != []) && (!crashed ==> Nilled(cert, if d.role.Source? then {Undecided} else {}))
  {
    hide Cert.Added, ViewOf;
    var producing := ProducingStates(d);
    ProducesSomewhere(d);
    if d.role.Source? {
      cert.MarkPopulated(producing);
    } else if |d.produces| > 0 {
      assert d.produces[0] in SetOf(d.produces);
      if Accepted in producing && Accepted !in cert.populated && Undecided in cert.populated {
        cert.CopyBucket(Undecided, Accepted);
      }
      cert.MarkPopulated(producing);
    }
    ghost var marked := cert.View();
    crashed := cert.AddAll(producing, d.produces);
    AddedNothing(marked, producing);
    more := reach + SetOf(d.produces) + SetOf(d.mayProduce);
  }

  lemma ProducesSomewhere(d: Descriptor)
    ensures ProducingStates(d) != {}
    ensures d.produces == [] ==> SetOf(d.produces) == {}
  {
    if !d.role.Source? && d.inputStates == {} {
      assert Accepted in InputStates(d);
    } else if d.role.Source? {
      assert Undecided in ProducingStates(d);
    }
  }

  lemma AddedNothing(c: Cert, states: set<State>)
    ensures c.Added(states, {}) == c
  {
    SameCert(c.Added(states, {}), c);
  }

  method NonBlank(fields: seq<Field>) returns (named: seq<Field>)
    ensures named == RequireFields(fields)
  {
    named := [];
    for i := 0 to |fields|
      invariant named == RequireFields(fields[..i])
    {
      assert fields[..i + 1][..i] == fields[..i];
      if fields[i] != "" { named := named + [fields[i]]; }
    }
    assert fields[..|fields|] == fields;
  }

  /** What NarrowCertain and its counterparts for absence return: sorted, each field once. */
  method FreshFields(fields: seq<Field>, reach: set<Field>, certain: set<Field>) returns (added: seq<Field>)
    ensures SetOf(added) == Fresh(fields, reach, certain)
    ensures added != [] ==> added[0] == Least(fields, Fresh(fields, reach, certain))
  {
    var all: seq<Field> := [];
    for i := 0 to |fields|
      invariant Distinct(all) && forall f :: f in all <==> f in fields[..i] && f in reach && f !in certain
    {
      assert fields[..i + 1] == fields[..i] + [fields[i]];
      if fields[i] in reach && fields[i] !in certain && fields[i] !in all {
        all := all + [fields[i]];
      }
    }
    assert fields[..|fields|] == fields;
    added := SortIDs(all);
    if added != [] {
      assert added[0] in added;
      assert added[0] in SetOf(fields) * Fresh(fields, reach, certain);
      LeastIs(fields, Fresh(fields, reach, certain));
      FirstIsLeast(added, Least(fields, Fresh(fields, reach, certain)));
    }
  }

  lemma {:induction false} LeastIs(fields: seq<Field>, among: set<Field>)
    requires SetOf(fields) * among != {}
    ensures Least(fields, among) in SetOf(fields) * among
    ensures forall f :: f in SetOf(fields) * among ==> Leq(Least(fields, among), f)
  {
    hide Leq;
    var n := |fields| - 1;
    var last := fields[n];
    assert fields == fields[..n] + [last];
    assert SetOf(fields) == SetOf(fields[..n]) + {last};
    LeqTotal(last, last);
    if SetOf(fields[..n]) * among != {} {
      var rest := Least(fields[..n], among);
      LeastIs(fields[..n], among);
      LeqTotal(last, rest);
      if last in among && Less(last, rest) {
        forall f | f in SetOf(fields[..n]) * among ensures Leq(last, f) {
          LeqTransitive(last, rest, f);
        }
      }
    } else {
      assert last in among;
    }
  }

  lemma FirstIsLeast(sorted: seq<Field>, least: Field)
    requires StrictlySorted(sorted) && least in sorted && forall f :: f in sorted ==> Leq(least, f)
    ensures sorted[0] == least
  {
    hide Leq;
    var k :| 0 <= k < |sorted| && sorted[k] == least;
    assert sorted[0] in sorted;
    LeqTotal(least, sorted[0]);
  }

  /** The fields RejectPresenceRemoved and AcceptAbsenceRemoved return. */
  method ReachableOf(fields: seq<Field>, reach: set<Field>) returns (removed: seq<Field>)
    ensures SetOf(removed) == SetOf(fields) * reach
  {
    removed := [];
    for i := 0 to |fields|
      invariant SetOf(removed) == SetOf(fields[..i]) * reach
    {
      SetOfSnoc(fields[..i], fields[i]);
      SetOfSnoc(removed, fields[i]);
      assert fields[..i + 1] == fields[..i] + [fields[i]];
      if fields[i] in reach { removed := removed + [fields[i]]; }
    }
    assert fields[..|fields|] == fields;
  }

  method ApplyAccept(narrows: seq<Field>, reach: set<Field>, cert: StateCertainty)
    returns (crashed: bool, more: set<Field>)
    requires cert.Valid() && cert.slots
    modifies cert
    ensures !crashed ==>
      cert.Valid() && cert.slots && Flow(more, cert.View()) == AfterAccept(narrows, Flow(reach, old(cert.View())))
    ensures old(cert.Sturdy()) ==> !crashed && cert.Sturdy()
    ensures old(cert.buckets).Keys == {} && Undecided !in old(cert.populated) ==>
      && (crashed <==> AcceptWrites(narrows, reach))
      && (!crashed ==> Nilled(cert, old(cert.populated) + {Accepted}) && more == reach)
  {
    hide Cert.Promoted;
    var certain := if Undecided in cert.populated then cert.Get(Undecided) else cert.Get(Accepted);
    var added := FreshFields(narrows, reach, certain);
    AnyFresh(added, narrows, reach, certain);
    more := reach + SetOf(added);
    assert more == reach;
    crashed := cert.PromoteAccepted(added);
  }

  lemma AnyFresh(added: seq<Field>, fields: seq<Field>, reach: set<Field>, certain: set<Field>)
    requires SetOf(added) == Fresh(fields, reach, certain)
    ensures added != [] <==> exists f :: f in fields && f in reach && f !in certain
    ensures added == [] <==> SetOf(added) == {}
  {
    if added != [] {
      assert added[0] in SetOf(added);
    } else {
      assert SetOf(added) == {};
      assert forall f :: f in fields && f in reach && f !in certain ==> f in Fresh(fields, reach, certain);
    }
  }

  method ApplyReject(removes: seq<Field>, promotes: seq<Field>, reach: set<Field>, cert: StateCertainty)
    returns (crashed: bool, more: set<Field>)
    requires cert.Valid() && cert.slots
    modifies cert
    ensures !crashed ==>
      cert.Valid() && cert.slots &&
        Flow(more, cert.View()) == AfterReject(removes, promotes, Flow(reach, old(cert.View())))
    ensures old(cert.Sturdy()) ==> !crashed && cert.Sturdy()
    ensures old(cert.buckets).Keys == {} && old(cert.populated) <= {Accepted} ==>
      && (crashed <==> RejectWrites(removes, promotes, reach, old(cert.populated) == {Accepted}))
      && (!crashed ==> Nilled(cert, old(cert.populated)) && more == reach - SetOf(removes))
  {
    hide Cert.Narrowed, Cert.Removed, Least, ViewOf;
    var removed := ReachableOf(removes, reach);
    more := reach - SetOf(removed);
    assert more == reach - SetOf(removes);
    cert.RemoveFromAcceptedUndecided(removed);
    ghost var left := Flow(more, cert.View());
    assert left == Without(Flow(reach, old(cert.View())), SetOf(removes) * reach);
    var certain := if Undecided in cert.populated then cert.Get(Undecided) else cert.Get(Accepted);
    assert certain == Reference(left.cert) by {
      assert left.cert.undecided == left.cert.At(Undecided) && left.cert.accepted == left.cert.At(Accepted);
    }
    var added := FreshFields(promotes, more, certain);
    AnyFresh(added, promotes, more, certain);
    assert more + SetOf(added) == more;
    more := more + SetOf(added);
    if |added| == 0 { NarrowedNothing(left.cert, Least(promotes, {})); }
    NarrowedNothing(left.cert, "");
    crashed := cert.NarrowAcceptedUndecided(added, if |added| > 0 then added[0] else "");
  }

  /** applyConditionNarrowingStateful. */
  method ApplyRules(rules: seq<Rule>, reach: set<Field>, cert: StateCertainty) returns (crashed: bool, more: set<Field>)
    requires cert.Valid() && cert.slots
    modifies cert
    ensures !crashed ==>
      cert.Valid() && cert.slots && Flow(more, cert.View()) == AfterRules(rules, Flow(reach, old(cert.View())))
    ensures old(cert.Sturdy()) ==> !crashed && cert.Sturdy()
    ensures old(Nilled(cert, {})) ==>
      (crashed <==> RulesCrash(rules, reach, false)) &&
        (!crashed ==> Nilled(cert, if AnyAccepts(rules) then {Accepted} else {}))
  {
    hide AfterAccept, AfterReject, AcceptWrites, RejectWrites, Nilled;
    crashed, more := false, reach;
    ghost var marked := false;
    RulesStart(rules, cert);
    for i := 0 to |rules|
      invariant cert.Valid() && cert.slots &&
        Flow(more, cert.View()) == AfterRules(rules[..i], Flow(reach, old(cert.View())))
      invariant old(cert.Sturdy()) ==> cert.Sturdy()
      invariant old(Nilled(cert, {})) ==>
        && Nilled(cert, if marked then {Accepted} else {}) && (marked <==> AnyAccepts(rules[..i]))
        && (RulesCrash(rules, reach, false) <==> RulesCrash(rules[i..], more, marked))
    {
      RulesNext(rules, i);
      if old(Nilled(cert, {})) { NilledIs(cert, if marked then {Accepted} else {}); }
      match rules[i] {
        case AcceptRule(narrows) => crashed, more := ApplyAccept(narrows, more, cert);
        case RejectRule(removes, promotes) => crashed, more := ApplyReject(removes, promotes, more, cert);
        case BothRule(narrows, removes, promotes) =>
          crashed, more := ApplyAccept(narrows, more, cert);
          if crashed { return; }
          if old(Nilled(cert, {})) { NilledIs(cert, (if marked then {Accepted} else {}) + {Accepted}); }
          crashed, more := ApplyReject(removes, promotes, more, cert);
      }
      if crashed { return; }
      if !rules[i].RejectRule? {
        if old(Nilled(cert, {})) { assert (if marked then {Accepted} else {}) + {Accepted} == {Accepted}; }
        marked := true;
      }
    }
    assert rules[..|rules|] == rules;
  }

  lemma RulesStart(rules: seq<Rule>, cert: StateCertainty)
    ensures !AnyAccepts(rules[..0]) && rules[0..] == rules
  {
  }

  lemma RulesNext(rules: seq<Rule>, i: nat)
    requires i < |rules|
    ensures rules[..i + 1][..i] == rules[..i] && rules[i..][0] == rules[i] && rules[i..][1..] == rules[i + 1..]
    ensures AnyAccepts(rules[..i + 1]) <==> AnyAccepts(rules[..i]) || !rules[i].RejectRule?
  {
    assert rules[..i + 1] == rules[..i] + [rules[i]];
  }

  lemma NilledIs(cert: StateCertainty, populated: set<State>)
    ensures Nilled(cert, populated) <==> cert.slots && cert.buckets.Keys == {} && cert.populated == populated
  {
  }

  /** applyPortAcceptNarrowingStateful. */
  method ApplyPort(port: Port, reach: set<Field>, cert: StateCertainty) returns (crashed: bool, more: set<Field>)
    requires cert.Valid() && cert.slots
    modifies cert
    ensures !crashed ==>
      cert.Valid() && cert.slots && Flow(more, cert.View()) == AfterPort(port, Flow(reach, old(cert.View())))
    ensures old(cert.Sturdy()) ==> !crashed && cert.Sturdy()
    ensures old(Nilled(cert, {})) && reach == {} ==> !crashed && more == {} && Nilled(cert, {})
  {
    hide Cert.Narrowed, Cert.Removed;
    var added := FreshFields(port.narrows, reach, cert.Get(Accepted));
    AnyFresh(added, port.narrows, reach, cert.Get(Accepted));
    more := reach + SetOf(added);
    assert more == reach;
    crashed := cert.NarrowAcceptedUndecided(added, "");
    if crashed { return; }
    var removed := ReachableOf(port.removes, reach);
    more := more - SetOf(removed);
    cert.RemoveFromAcceptedUndecided(removed);
  }

  /** The rule of the node's plugin, where the analyses know it by name. */
  method ApplyKind(d: Descriptor, reach: set<Field>, cert: StateCertainty) returns (crashed: bool, more: set<Field>)
    requires cert.Valid() && cert.slots
    modifies cert
    ensures !crashed ==>
      cert.Valid() && cert.slots && Flow(more, cert.View()) == AfterKind(d, Flow(reach, old(cert.View())))
    ensures old(cert.Sturdy()) ==> !crashed && cert.Sturdy()
    ensures old(Nilled(cert, {})) ==>
      (crashed <==> KindCrashes(d, reach)) && (!crashed ==> Nilled(cert, if KindMarks(d) then {Accepted} else {}))
    ensures d.kind.Ordinary? ==> !crashed && unchanged(cert)
  {
    hide Cert.Narrowed, Cert.Swapped, ParseStateName, AfterRules, RulesCrash, AnyAccepts, ViewOf;
    crashed, more := false, reach;
    match d.kind {
      case Ordinary =>
      case Require(fields) =>
        var named := NonBlank(fields);
        if |named| == 0 { return; }
        more := reach + SetOf(named);
        crashed := cert.NarrowAcceptedUndecided(named, named[0]);
      case SwapState(names) =>
        if |names| != 2 { return; }
        var a, b := ParseStateName(names[0]), ParseStateName(names[1]);
        if a.UnknownName? || b.UnknownName? { return; }
        cert.Swap(a.state, b.state);
      case Condition(rules) => crashed, more := ApplyRules(rules, reach, cert);
    }
  }

  method ApplySubs(d: Descriptor, reach: set<Field>, cert: StateCertainty) returns (crashed: bool, more: set<Field>)
    requires cert.Valid() && cert.slots
    modifies cert
    ensures !crashed ==>
      cert.Valid() && cert.slots && Flow(more, cert.View()) == AfterSubs(d, Flow(reach, old(cert.View())))
    ensures old(cert.Sturdy()) ==> !crashed && cert.Sturdy()
    ensures old(cert.buckets).Keys == {} ==>
      (crashed <==> SubsWrite(d) && ProducingStates(d) * old(cert.populated) != {})
  {
    hide Cert.Added, ViewOf;
    crashed, more := false, reach;
    AddedNothing(cert.View(), ProducingStates(d));
    for i := 0 to |d.subs|
      invariant cert.Valid() && cert.slots && cert.buckets.Keys == old(cert.buckets).Keys &&
        cert.populated == old(cert.populated)
      invariant more == reach + SubReach(d.subs[..i])
      invariant cert.View() == old(cert.View()).Added(ProducingStates(d), SubFields(d.subs[..i]))
      invariant old(cert.buckets).Keys == {} && ProducingStates(d) * old(cert.populated) != {} ==>
        forall j :: 0 <= j < i ==> d.subs[j].produces == []
    {
      SubsSnoc(d.subs, i);
      AddedTwice(old(cert.View()), ProducingStates(d), SubFields(d.subs[..i]), SetOf(d.subs[i].produces));
      crashed := cert.AddAll(ProducingStates(d), d.subs[i].produces);
      if crashed { return; }
      more := more + SetOf(d.subs[i].produces) + SetOf(d.subs[i].mayProduce);
    }
    assert d.subs[..|d.subs|] == d.subs;
  }

  lemma SubsSnoc(subs: seq<SubPlugin>, i: nat)
    requires i < |subs|
    ensures SubFields(subs[..i + 1]) == SubFields(subs[..i]) + SetOf(subs[i].produces)
    ensures SubReach(subs[..i + 1]) == SubReach(subs[..i]) + SetOf(subs[i].produces) + SetOf(subs[i].mayProduce)
  {
    assert subs[..i + 1][..i] == subs[..i];
  }

  lemma AddedTwice(c: Cert, states: set<State>, a: set<Field>, b: set<Field>)
    ensures c.Added(states, a).Added(states, b) == c.Added(states, a + b)
  {
    SameCert(c.Added(states, a).Added(states, b), c.Added(states, a + b));
  }

  /** Everything a node does to what it inherits. */
  method ApplyNode(d: Descriptor, reach: set<Field>, cert: StateCertainty) returns (crashed: bool, more: set<Field>)
    requires cert.Valid() && cert.slots && Sensible(d) && d.registered
    modifies cert
    ensures !crashed ==>
      cert.Valid() && cert.slots && Flow(more, cert.View()) == Leaving(d, Flow(reach, old(cert.View())))
    ensures old(cert.Sturdy()) ==> !crashed && cert.Sturdy()
    ensures old(Nilled(cert, {})) && reach == {} ==> (crashed <==> WritesBuckets(d))
  {
    hide AfterProduces, AfterKind, AfterSubs, KindCrashes, KindMarks, SubsWrite, ViewOf;
    OrdinaryPlain(d);
    crashed, more := ApplyProduces(d, reach, cert);
    if crashed { return; }
    NothingProduced(d);
    label Produced:
    crashed, more := ApplyKind(d, more, cert);
    if crashed { return; }
    crashed, more := ApplySubs(d, more, cert);
  }

  lemma OrdinaryPlain(d: Descriptor)
    ensures d.kind.Ordinary? ==> !KindMarks(d) && forall reach :: !KindCrashes(d, reach)
    ensures d.role.Source? ==> ProducingStates(d) == {Undecided}
  {
  }

  lemma NothingProduced(d: Descriptor)
    ensures forall into: Flow :: d.produces == [] && into.reach == {} ==>
      AfterProduces(d, into).reach == SetOf(d.mayProduce)
  {
  }

  predicate FeedsNonSink(uses: map<NodeID, Descriptor>, m: NodeID) {
    m in uses && uses[m].registered && !uses[m].role.Sink?
  }

  /** The structural role checks. */
  method CheckRole(g: Graph, uses: map<NodeID, Descriptor>, n: NodeID) returns (errs: seq<Finding>)
    requires g.Valid() && n in g.nodes && g.nodes.Keys <= uses.Keys && uses[n].registered
    ensures forall f :: f in errs <==>
      f.node == n && (f.SourceHasUpstreams? || f.NeedsUpstream? || f.SinkFeeds?) && Applies(g.View(), uses, map[], f)
  {
    errs := [];
    var d, ups := uses[n], g.nodes[n].upstreams;
    if d.role.Source? && |ups| > 0 { errs := errs + [SourceHasUpstreams(n)]; }
    if !d.role.Source? && |ups| == 0 { errs := errs + [NeedsUpstream(n)]; }
    if d.role.Sink? {
      var downs := g.Downstreams(n);
      ghost var before := errs;
      for i := 0 to |downs|
        invariant forall f :: f in errs <==>
          f in before || (f.SinkFeeds? && f.node == n && f.consumer in downs[..i] && FeedsNonSink(uses, f.consumer))
      {
        assert downs[..i + 1] == downs[..i] + [downs[i]];
        assert downs[i] in downs;
        if uses[downs[i]].registered && !uses[downs[i]].role.Sink? {
          errs := errs + [SinkFeeds(n, downs[i])];
        }
      }
      assert downs[..|downs|] == downs;
    }
  }

  /** The body of the validator's loop. */
  method ValidateNode(g: Graph, uses: map<NodeID, Descriptor>, n: NodeID,
                      reachable: map<NodeID, set<Field>>, certain: map<NodeID, StateCertainty>,
                      ghost flows: map<NodeID, Flow>)
    returns (crashed: bool, reach: set<Field>, cert: StateCertainty, errs: seq<Finding>, warnings: seq<Finding>)
    requires g.Valid() && n in g.nodes && g.nodes.Keys <= uses.Keys && uses[n].registered &&
      Stored(reachable, certain, flows)
    requires Sensible(uses[n])
    requires forall u :: u in g.nodes[n].upstreams ==> u in g.nodes && (u in flows <==> uses[u].registered)
    ensures crashed <==> Crashes(g.View(), uses, n)
    ensures fresh(cert)
    ensures !crashed ==>
      && cert.Valid() && cert.slots
      && Flow(reach, cert.View()) == Leaving(uses[n], Entering(uses[n], g.nodes[n].upstreams, flows))
      && Found(g.View(), uses, flows, {n}, errs, warnings)
  {
    hide Leaving, Inherited, AfterPort, CertainFor, Built, Applies, Found, Meets, Stored, WritesBuckets, Nilled;
    var d, ups := uses[n], g.nodes[n].upstreams;
    StoredKeys(reachable, certain, flows);
    reach, cert := InheritReachAndCert(ups, reachable, certain, flows);
    crashed, reach := ApplyPort(d.port, reach, cert);
    errs, warnings := [], [];
    if crashed { return; }
    ghost var into := Flow(reach, cert.View());
    var roleErrs := CheckRole(g, uses, n);
    var fields := CertainFields(d, cert, into);
    errs, warnings := CheckNeeds(n, d, reach, fields);
    FoundHere(g, uses, flows, n, roleErrs, errs, warnings);
    errs := roleErrs + errs;
    crashed, reach := ApplyNode(d, reach, cert);
  }

  lemma FoundHere(g: Graph, uses: map<NodeID, Descriptor>, flows: map<NodeID, Flow>, n: NodeID,
                  roleErrs: seq<Finding>, errs: seq<Finding>, warnings: seq<Finding>)
    requires n in g.nodes && n in uses && uses[n].registered
    requires forall f :: f in roleErrs <==>
      f.node == n && (f.SourceHasUpstreams? || f.NeedsUpstream? || f.SinkFeeds?) && Applies(g.View(), uses, map[], f)
    requires var into := Entering(uses[n], g.nodes[n].upstreams, flows);
      && (forall f :: f in errs <==>
        f.NotProduced? && f.node == n && f.group in uses[n].needs && !Meets(into.reach, f.group))
      && (forall f :: f in warnings <==>
            f.NotCertain? && f.node == n && f.group in uses[n].needs && Meets(into.reach, f.group) &&
              !Meets(CertainFor(uses[n], into), f.group))
    ensures Found(g.View(), uses, flows, {n}, roleErrs + errs, warnings)
  {
    hide Inherited, AfterPort, CertainFor, Meets, FeedsNonSink;
  }

  lemma StoredKeys(reachable: map<NodeID, set<Field>>, certain: map<NodeID, StateCertainty>, flows: map<NodeID, Flow>)
    requires Stored(reachable, certain, flows)
    ensures certain.Keys == flows.Keys
  {
  }

  /** These are all the errors and warnings about these nodes. */
  ghost predicate Found(g: Dag, uses: map<NodeID, Descriptor>, flows: map<NodeID, Flow>, done: set<NodeID>,
                        errs: seq<Finding>, warnings: seq<Finding>) {
    && (forall f :: f in errs <==> f.node in done && !f.NotCertain? && Applies(g, uses, flows, f))
    && (forall f :: f in warnings <==> f.node in done && f.NotCertain? && Applies(g, uses, flows, f))
  }

  /** The flows of the nodes visited so far. */
  ghost predicate FlowSoFar(g: Dag, uses: map<NodeID, Descriptor>, flows: map<NodeID, Flow>, done: set<NodeID>) {
    && done <= g.ups.Keys <= uses.Keys
    && (forall n :: n in flows <==> n in done && uses[n].registered)
    && (forall n :: n in flows ==> flows[n] == Leaving(uses[n], Entering(uses[n], g.ups[n], flows)))
    && forall n, u :: n in done && u in g.ups[n] ==> u in done
  }

  lemma FoundUnknown(g: Dag, uses: map<NodeID, Descriptor>, flows: map<NodeID, Flow>, done: set<NodeID>, n: NodeID,
                     errs: seq<Finding>, warnings: seq<Finding>)
    requires FlowSoFar(g, uses, flows, done) && n in g.ups && n !in done && (forall u :: u in g.ups[n] ==> u in done)
    requires !uses[n].registered && Found(g, uses, flows, done, errs, warnings)
    ensures FlowSoFar(g, uses, flows, done + {n}) &&
      Found(g, uses, flows, done + {n}, errs + [UnknownPlugin(n)], warnings)
  {
    hide Inherited, AfterPort, Leaving, CertainFor;
  }

  lemma FlowMore(g: Dag, uses: map<NodeID, Descriptor>, flows: map<NodeID, Flow>, done: set<NodeID>, n: NodeID)
    requires FlowSoFar(g, uses, flows, done) && n in g.ups && n !in done && (forall u :: u in g.ups[n] ==> u in done)
    requires uses[n].registered
    ensures var more := flows[n := Leaving(uses[n], Entering(uses[n], g.ups[n], flows))];
      && FlowSoFar(g, uses, more, done + {n})
      && forall m :: m in done + {n} ==> Entering(uses[m], g.ups[m], more) == Entering(uses[m], g.ups[m], flows)
  {
    hide Leaving, Inherited, AfterPort;
    var f := Leaving(uses[n], Entering(uses[n], g.ups[n], flows));
    forall m | m in done + {n}
      ensures Entering(uses[m], g.ups[m], flows[n := f]) == Entering(uses[m], g.ups[m], flows) {
      InheritedStable(g.ups[m], flows, n, f);
    }
  }

  lemma FoundKnown(g: Dag, uses: map<NodeID, Descriptor>, flows: map<NodeID, Flow>, done: set<NodeID>, n: NodeID,
                   errs: seq<Finding>, warnings: seq<Finding>, e: seq<Finding>, w: seq<Finding>)
    requires FlowSoFar(g, uses, flows, done) && n in g.ups && n !in done && (forall u :: u in g.ups[n] ==> u in done)
    requires uses[n].registered && Found(g, uses, flows, done, errs, warnings) && Found(g, uses, flows, {n}, e, w)
    ensures var more := flows[n := Leaving(uses[n], Entering(uses[n], g.ups[n], flows))];
      FlowSoFar(g, uses, more, done + {n}) && Found(g, uses, more, done + {n}, errs + e, warnings + w)
  {
    hide Inherited, AfterPort, Leaving, CertainFor;
    FlowMore(g, uses, flows, done, n);
    var more := flows[n := Leaving(uses[n], Entering(uses[n], g.ups[n], flows))];
    assert forall f: Finding :: f.node in done + {n} ==>
      (Applies(g, uses, more, f) <==> Applies(g, uses, flows, f)) by {
      SameApplies(g, uses, flows, more, done + {n});
    }
  }

  lemma SameApplies(g: Dag, uses: map<NodeID, Descriptor>, flows: map<NodeID, Flow>, more: map<NodeID, Flow>,
                    nodes: set<NodeID>)
    requires nodes <= g.ups.Keys <= uses.Keys && forall m :: m in nodes ==>
      Entering(uses[m], g.ups[m], more) == Entering(uses[m], g.ups[m], flows)
    ensures forall f: Finding :: f.node in nodes ==> (Applies(g, uses, more, f) <==> Applies(g, uses, flows, f))
  {
    hide Inherited, AfterPort, CertainFor;
  }

  /** How far the walk has come. */
  ghost predicate Progress(g: Dag, uses: map<NodeID, Descriptor>, flows: map<NodeID, Flow>, done: set<NodeID>,
                           reachable: map<NodeID, set<Field>>, certain: map<NodeID, StateCertainty>)
    reads set id | id in certain :: certain[id]
  {
    && FlowSoFar(g, uses, flows, done) && Stored(reachable, certain, flows)
    && forall n :: n in done ==> !Crashes(g, uses, n)
  }

  lemma ProgressStart(g: Dag, uses: map<NodeID, Descriptor>)
    requires g.ups.Keys <= uses.Keys
    ensures Progress(g, uses, map[], {}, map[], map[]) && Found(g, uses, map[], {}, [], [])
  {
  }

  lemma ProgressAt(g: Dag, uses: map<NodeID, Descriptor>, flows: map<NodeID, Flow>, done: set<NodeID>,
                   reachable: map<NodeID, set<Field>>, certain: map<NodeID, StateCertainty>, n: NodeID)
    requires Progress(g, uses, flows, done, reachable, certain) && n in g.ups &&
      (forall u :: u in g.ups[n] ==> u in done)
    ensures n in uses && FlowSoFar(g, uses, flows, done) && Stored(reachable, certain, flows)
    ensures forall u :: u in g.ups[n] ==> u in g.ups && u in uses && (u in flows <==> uses[u].registered)
    ensures !uses[n].registered && n !in done ==> Progress(g, uses, flows, done + {n}, reachable, certain)
  {
    hide Inherited, AfterPort, Leaving, WritesBuckets, StateCertainty.Valid, StateCertainty.View;
  }

  lemma ProgressMore(g: Dag, uses: map<NodeID, Descriptor>, flows: map<NodeID, Flow>, done: set<NodeID>,
                     reachable: map<NodeID, set<Field>>, certain: map<NodeID, StateCertainty>, n: NodeID,
                     reach: set<Field>, cert: StateCertainty)
    requires Progress(g, uses, flows, done, reachable, certain) && n in g.ups && n !in done &&
      (forall u :: u in g.ups[n] ==> u in done)
    requires n in uses && uses[n].registered && !Crashes(g, uses, n)
    requires cert.Valid() && cert.slots &&
      Flow(reach, cert.View()) == Leaving(uses[n], Entering(uses[n], g.ups[n], flows))
    ensures Progress(g, uses, flows[n := Leaving(uses[n], Entering(uses[n], g.ups[n], flows))], done + {n},
      reachable[n := reach], certain[n := cert])
  {
    hide Inherited, AfterPort, Leaving, FlowSoFar, Crashes, Stored, StateCertainty.View, StateCertainty.Valid;
    StoredMore(reachable, certain, flows, n, reach, cert);
    FlowMore(g, uses, flows, done, n);
  }

  lemma ProgressEnd(g: Dag, uses: map<NodeID, Descriptor>, flows: map<NodeID, Flow>,
                    reachable: map<NodeID, set<Field>>, certain: map<NodeID, StateCertainty>)
    requires Progress(g, uses, flows, g.ups.Keys, reachable, certain)
    ensures IsFlow(g, uses, flows) && forall n :: !Crashes(g, uses, n)
  {
    hide Inherited, AfterPort, Leaving;
  }

  /**
    Validate, without its separate passes over run_on, deprecated fields,
    globs, webhooks and ordering. `flows` are the field sets it has built.
   */
  method Validate(g: Graph, uses: map<NodeID, Descriptor>) returns (v: Verdict, ghost flows: map<NodeID, Flow>)
    requires g.Valid() && g.nodes.Keys <= uses.Keys && forall n :: n in uses ==> Sensible(uses[n])
    ensures v.Cyclic? <==> exists n :: n in g.nodes && !Distinct(g.nodes[n].upstreams)
    ensures v.Crash? <==> !v.Cyclic? && exists n :: Crashes(g.View(), uses, n)
    ensures v.Checked? ==>
      IsFlow(g.View(), uses, flows) && Found(g.View(), uses, flows, g.nodes.Keys, v.errs, v.warnings)
  {
    hide *;
    flows := map[];
    ghost var d := g.View();
    Layers.ViewNodes(g);
    var layering := Layers.Layers(g);
    if layering.Cycle? { return Cyclic, flows; }
    var layers := layering.layers;
    var reachable: map<NodeID, set<Field>>, certain: map<NodeID, StateCertainty> := map[], map[];
    var errs, warnings := [], [];
    ghost var done: set<NodeID> := {};
    Layers.VisitAll(d, layers, {});
    ProgressStart(d, uses);
    for k := 0 to |layers|
      invariant Layers.Visited(d, layers, k, 0, done) && Progress(d, uses, flows, done, reachable, certain)
      invariant Found(d, uses, flows, done, errs, warnings)
    {
      for j := 0 to |layers[k]|
        invariant Layers.Visited(d, layers, k, j, done) && Progress(d, uses, flows, done, reachable, certain)
        invariant Found(d, uses, flows, done, errs, warnings)
      {
        var n := layers[k][j];
        Layers.VisitNext(d, layers, k, j, done);
        ProgressAt(d, uses, flows, done, reachable, certain, n);
        if !uses[n].registered {
          FoundUnknown(d, uses, flows, done, n, errs, warnings);
          errs := errs + [UnknownPlugin(n)];
        } else {
          var crashed, reach, cert, e, w := ValidateNode(g, uses, n, reachable, certain, flows);
          if crashed { return Crash, flows; }
          FoundKnown(d, uses, flows, done, n, errs, warnings, e, w);
          ProgressMore(d, uses, flows, done, reachable, certain, n, reach, cert);
          errs, warnings := errs + e, warnings + w;
          reachable, certain := reachable[n := reach], certain[n := cert];
          flows := flows[n := Leaving(uses[n], Entering(uses[n], d.ups[n], flows))];
        }
        done := done + {n};
      }
      Layers.VisitLayer(d, layers, k, done);
    }
    Layers.VisitAll(d, layers, done);
    ProgressEnd(d, uses, flows, reachable, certain);
    return Checked(errs, warnings), flows;
  }
}
