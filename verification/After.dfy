/** Pipelines that run after others (internal/config/after.go). */
module After {
  import opened Strconv

  type Pipeline = string

  datatype Condition = Always | OnAccepted

  datatype Parsed = Parsed(parent: Pipeline, condition: Condition) | Malformed

  function ColonAt(spec: string): (i: nat)
    ensures i <= |spec| && (i < |spec| ==> spec[i] == ':') && forall k :: 0 <= k < i ==> spec[k] != ':'
  {
    if spec == [] || spec[0] == ':' then 0 else 1 + ColonAt(spec[1..])
  }

  /** ParseAfter: the parent's name, then after the first colon nothing or "accepted". */
  function ParseAfter(spec: string): Parsed {
    var i := ColonAt(spec);
    var condition := if i < |spec| then spec[i + 1..] else "";
    if i == 0 then Malformed
    else if condition == "" then Parsed(spec[..i], Always)
    else if condition == "accepted" then Parsed(spec[..i], OnAccepted)
    else Malformed
  }

  // --- Chains of parents ---

  /** The parent a walk moves on to: malformed and self references end it. */
  function Next(after: map<Pipeline, string>, name: Pipeline): Option<Pipeline> {
    if name !in after then None
    else match ParseAfter(after[name])
      case Malformed => None
      case Parsed(parent, _) => if parent == name then None else Some(parent)
  }

  /** The k-th ancestor. */
  function Ancestor(after: map<Pipeline, string>, name: Pipeline, k: nat): Option<Pipeline> {
    if k == 0 then Some(name)
    else
      var a := Ancestor(after, name, k - 1);
      if a.None? then None else Next(after, a.value)
  }

  lemma AncestorStep(after: map<Pipeline, string>, name: Pipeline, k: nat)
    ensures Ancestor(after, name, 0) == Some(name)
    ensures var a := Ancestor(after, name, k);
      Ancestor(after, name, k + 1) == if a.None? then None else Next(after, a.value)
  {
  }

  /** The parents of a pipeline, and theirs, come to an end. */
  ghost predicate Ends(after: map<Pipeline, string>, name: Pipeline) { exists k :: Ancestor(after, name, k).None? }

  lemma {:induction false} NoneStays(after: map<Pipeline, string>, name: Pipeline, j: nat, k: nat)
    requires j <= k && Ancestor(after, name, j).None?
    ensures Ancestor(after, name, k).None?
  {
    if j < k { NoneStays(after, name, j, k - 1); }
  }

  lemma {:induction false} AncestorAdd(after: map<Pipeline, string>, name: Pipeline, j: nat, k: nat)
    requires Ancestor(after, name, j).Some?
    ensures Ancestor(after, name, j + k) == Ancestor(after, Ancestor(after, name, j).value, k)
  {
    hide Ancestor, Next;
    var a := Ancestor(after, name, j).value;
    if k == 0 {
      AncestorStep(after, a, 0);
    } else {
      AncestorAdd(after, name, j, k - 1);
      AncestorStep(after, name, j + k - 1);
      AncestorStep(after, a, k - 1);
    }
  }

  /** A pipeline among its own ancestors has no end of them. */
  lemma {:induction false} CycleNeverEnds(after: map<Pipeline, string>, name: Pipeline, p: nat, k: nat)
    requires p > 0 && Ancestor(after, name, p) == Some(name)
    ensures Ancestor(after, name, k).Some?
  {
    hide Ancestor, Next;
    if k >= p {
      CycleNeverEnds(after, name, p, k - p);
      AncestorAdd(after, name, p, k - p);
    } else if Ancestor(after, name, k).None? {
      NoneStays(after, name, k, p);
    }
  }

  lemma RepeatNeverEnds(after: map<Pipeline, string>, name: Pipeline, i: nat, j: nat)
    requires i < j && Ancestor(after, name, i).Some? && Ancestor(after, name, j) == Ancestor(after, name, i)
    ensures !Ends(after, name)
  {
    hide Ancestor, Next;
    var a := Ancestor(after, name, i).value;
    AncestorAdd(after, name, i, j - i);
    forall k ensures Ancestor(after, name, k).Some? {
      CycleNeverEnds(after, a, j - i, k);
      AncestorAdd(after, name, i, k);
      if Ancestor(after, name, k).None? { NoneStays(after, name, k, i + k); }
    }
  }

  // --- Validation ---

  datatype Problem =
    | BadSpec(name: Pipeline)
    | SelfReference(name: Pipeline)
    | UnknownParent(name: Pipeline)
    | Cycle(name: Pipeline)

  ghost predicate Applies(after: map<Pipeline, string>, graphs: set<Pipeline>, p: Problem) {
    p.name in after &&
    var parsed := ParseAfter(after[p.name]);
    match p
    case BadSpec(_) => parsed.Malformed?
    case SelfReference(name) => parsed.Parsed? && parsed.parent == name
    case UnknownParent(name) => parsed.Parsed? && parsed.parent != name && parsed.parent !in graphs
    case Cycle(name) => !Ends(after, name)
  }

  /** These are the pipeline and its first k ancestors. */
  ghost predicate Line(after: map<Pipeline, string>, name: Pipeline, k: nat, seen: set<Pipeline>) {
    && (forall x :: x in seen ==> exists i :: 0 <= i <= k && Ancestor(after, name, i) == Some(x))
    && (forall i :: 0 <= i <= k ==> Ancestor(after, name, i).Some? && Ancestor(after, name, i).value in seen)
  }

  lemma LineMore(after: map<Pipeline, string>, name: Pipeline, k: nat, seen: set<Pipeline>, cur: Pipeline)
    requires Line(after, name, k, seen) && Ancestor(after, name, k) == Some(cur)
    ensures Next(after, cur).None? ==> Ends(after, name)
    ensures Next(after, cur).Some? ==>
      var parent := Next(after, cur).value;
      && Ancestor(after, name, k + 1) == Some(parent)
      && Line(after, name, k + 1, seen + {parent}) && (parent in seen ==> !Ends(after, name))
  {
    hide Ancestor, Next;
    AncestorStep(after, name, k);
    if Next(after, cur).None? {
      assert Ancestor(after, name, k + 1).None?;
    } else {
      var parent := Next(after, cur).value;
      if parent in seen {
        var i :| 0 <= i <= k && Ancestor(after, name, i) == Some(parent);
        RepeatNeverEnds(after, name, i, k + 1);
      }
    }
  }

  /** The cycle walk from one pipeline. */
  method WalksInCircles(after: map<Pipeline, string>, name: Pipeline) returns (cycle: bool)
    ensures cycle <==> !Ends(after, name)
  {
    hide Ancestor, Ends, Line, ParseAfter;
    var seen := {name};
    var cur := name;
    ghost var k := 0;
    LineStart(after, name);
    while true
      invariant Ancestor(after, name, k) == Some(cur) && cur in seen && seen - {cur} <= after.Keys
      invariant Line(after, name, k, seen)
      decreases after.Keys - (seen - {cur})
    {
      LineMore(after, name, k, seen, cur);
      if cur !in after { return false; }
      var parsed := ParseAfter(after[cur]);
      if parsed.Malformed? || parsed.parent == cur { return false; }
      if parsed.parent in seen { return true; }
      assert cur in after.Keys - (seen - {cur}) && cur in seen + {parsed.parent} - {parsed.parent};
      seen := seen + {parsed.parent};
      cur := parsed.parent;
      k := k + 1;
    }
  }

  lemma LineStart(after: map<Pipeline, string>, name: Pipeline)
    ensures Ancestor(after, name, 0) == Some(name) && Line(after, name, 0, {name})
  {
  }

  /** validateAfter, over the pipelines of a config in any order. */
  method ValidateAfter(after: map<Pipeline, string>, graphs: set<Pipeline>) returns (problems: seq<Problem>)
    ensures forall p :: p in problems <==> Applies(after, graphs, p)
  {
    hide Ends, ParseAfter;
    problems := [];
    var left := after.Keys;
    while left != {}
      invariant left <= after.Keys
      invariant forall p :: p in problems <==> p.name !in left && !p.Cycle? && Applies(after, graphs, p)
    {
      var name :| name in left;
      left := left - {name};
      var parsed := ParseAfter(after[name]);
      if parsed.Malformed? {
        problems := problems + [BadSpec(name)];
      } else if parsed.parent == name {
        problems := problems + [SelfReference(name)];
      } else if parsed.parent !in graphs {
        problems := problems + [UnknownParent(name)];
      }
    }
    ghost var found := problems;
    left := after.Keys;
    while left != {}
      invariant left <= after.Keys
      invariant forall p :: p in problems <==> p in found || (p.name !in left && p.Cycle? && Applies(after, graphs, p))
    {
      var name :| name in left;
      left := left - {name};
      var cycle := WalksInCircles(after, name);
      if cycle { problems := problems + [Cycle(name)]; }
    }
  }

  /** A valid configuration: every chain of parents ends at a pipeline of the config that follows none. */
  lemma ChainsEnd(after: map<Pipeline, string>, graphs: set<Pipeline>, name: Pipeline)
    requires (forall p :: !Applies(after, graphs, p)) && name in graphs
    ensures exists k, root :: Ancestor(after, name, k) == Some(root) && root !in after && root in graphs
  {
    assert !Applies(after, graphs, Cycle(name));
    if name !in after {
      assert Ancestor(after, name, 0) == Some(name);
    } else {
      var k :| Ancestor(after, name, k).None?;
      LastAncestor(after, graphs, name, k);
    }
  }

  lemma {:induction false} LastAncestor(after: map<Pipeline, string>, graphs: set<Pipeline>, name: Pipeline, k: nat)
    requires (forall p :: !Applies(after, graphs, p)) && name in graphs && Ancestor(after, name, k).None?
    ensures exists j, root :: Ancestor(after, name, j) == Some(root) && root !in after && root in graphs
  {
    if Ancestor(after, name, k - 1).None? {
      LastAncestor(after, graphs, name, k - 1);
    } else {
      var root := Ancestor(after, name, k - 1).value;
      if root in after {
        assert !Applies(after, graphs, BadSpec(root)) && !Applies(after, graphs, SelfReference(root));
      }
      AncestorsKnown(after, graphs, name, k - 1);
      assert Ancestor(after, name, k - 1) == Some(root);
    }
  }

  lemma {:induction false} AncestorsKnown(after: map<Pipeline, string>, graphs: set<Pipeline>, name: Pipeline, k: nat)
    requires (forall p :: !Applies(after, graphs, p)) && name in graphs && Ancestor(after, name, k).Some?
    ensures Ancestor(after, name, k).value in graphs
  {
    if k > 0 {
      AncestorsKnown(after, graphs, name, k - 1);
      assert !Applies(after, graphs, UnknownParent(Ancestor(after, name, k - 1).value));
    }
  }

  // --- The cascade ---

  ghost predicate Follows(after: map<Pipeline, string>, parent: Pipeline, accepted: nat, name: Pipeline) {
    name in after &&
    var parsed := ParseAfter(after[name]);
    parsed.Parsed? && parsed.parent == parent && (parsed.condition.OnAccepted? ==> accepted > 0)
  }

  method Dependents(after: map<Pipeline, string>, parent: Pipeline, accepted: nat) returns (out: seq<Pipeline>)
    ensures forall n :: n in out <==> Follows(after, parent, accepted, n)
    ensures forall i, j :: 0 <= i < j < |out| ==> out[i] != out[j]
  {
    out := [];
    var left := after.Keys;
    while left != {}
      invariant left <= after.Keys
      invariant forall n :: n in out <==> n !in left && Follows(after, parent, accepted, n)
      invariant forall i, j :: 0 <= i < j < |out| ==> out[i] != out[j]
    {
      var name :| name in left;
      left := left - {name};
      var parsed := ParseAfter(after[name]);
      if parsed.Malformed? || parsed.parent != parent { continue; }
      if parsed.condition.OnAccepted? && accepted == 0 { continue; }
      out := out + [name];
    }
  }

  /** One run setting off the next: each pipeline on the list is fired by the one before. */
  ghost predicate Cascade(after: map<Pipeline, string>, accepted: map<Pipeline, nat>, fired: seq<Pipeline>) {
    && fired != []
    && forall i :: 0 < i < |fired| ==>
         Follows(after, fired[i - 1], if fired[i - 1] in accepted then accepted[fired[i - 1]] else 0, fired[i])
  }

  lemma {:induction false} CascadeClimbs(after: map<Pipeline, string>, accepted: map<Pipeline, nat>,
                                         fired: seq<Pipeline>, k: nat)
    requires Cascade(after, accepted, fired) && k < |fired|
    requires forall n :: n in after ==> Next(after, n).Some?
    ensures Ancestor(after, fired[|fired| - 1], k) == Some(fired[|fired| - 1 - k])
  {
    if k > 0 {
      CascadeClimbs(after, accepted, fired, k - 1);
      assert Follows(after, fired[|fired| - 1 - k],
                     if fired[|fired| - 1 - k] in accepted then accepted[fired[|fired| - 1 - k]]
                       else 0, fired[|fired| - k]);
    }
  }

  lemma ValidEnds(after: map<Pipeline, string>, graphs: set<Pipeline>, name: Pipeline)
    requires forall p :: !Applies(after, graphs, p)
    ensures Ends(after, name)
  {
    assert !Applies(after, graphs, Cycle(name));
    if name !in after {
      assert Ancestor(after, name, 0) == Some(name) && Ancestor(after, name, 1).None?;
    }
  }

  /** In a valid configuration a run's cascade reaches each pipeline in one way at most, and so fires it at most
    once. */
  lemma FiredOnce(after: map<Pipeline, string>, graphs: set<Pipeline>, accepted: map<Pipeline, nat>, a: seq<Pipeline>,
                  b: seq<Pipeline>)
    requires forall p :: !Applies(after, graphs, p)
    requires Cascade(after, accepted, a) && Cascade(after, accepted, b)
    requires a != [] && b != [] && a[0] == b[0] && a[|a| - 1] == b[|b| - 1]
    ensures a == b
  {
    hide *;
    AllClimb(after, graphs);
    var last := a[|a| - 1];
    CascadeClimbs(after, accepted, a, |a| - 1);
    CascadeClimbs(after, accepted, b, |b| - 1);
    ValidEnds(after, graphs, last);
    if |a| < |b| {
      RepeatNeverEnds(after, last, |a| - 1, |b| - 1);
    } else if |b| < |a| {
      RepeatNeverEnds(after, last, |b| - 1, |a| - 1);
    }
    forall k | 0 <= k < |a| ensures a[k] == b[k] {
      CascadeClimbs(after, accepted, a, |a| - 1 - k);
      CascadeClimbs(after, accepted, b, |a| - 1 - k);
    }
  }

  lemma AllClimb(after: map<Pipeline, string>, graphs: set<Pipeline>)
    requires forall p :: !Applies(after, graphs, p)
    ensures forall n :: n in after ==> Next(after, n).Some?
  {
    hide ParseAfter, Ends;
    forall n | n in after ensures Next(after, n).Some? {
      assert !Applies(after, graphs, BadSpec(n)) && !Applies(after, graphs, SelfReference(n));
    }
  }
}
