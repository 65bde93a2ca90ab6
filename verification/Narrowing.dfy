/**
  Condition expressions (internal/expr/expr.go): evaluation over an entry's
  data, and what is inferred of fields from an expression being true or false.
 */
module Narrowing {
  import opened Strconv
  import Graph

  type Name = string

  datatype Value = Nil | Text(text: string) | Number(n: real) | Flag(flag: bool) | Moment(t: int) | Other(id: int)

  datatype Node =
    | Bool(b: bool)
    | Str(s: string)
    | Num(n: real)
    | Ident(name: Name)
    | Binary(op: string, left: Node, right: Node)
    | Unary(op: string, arg: Node)
    | Func(fn: string, args: seq<Node>)   // of no argument or one

  datatype Result<T> = Ok(value: T) | Err

  /** What evaluation takes from the standard library and the clock. */
  datatype World = World(
    parseTime: string -> Option<int>,
    parseFloat: string -> Option<real>,
    formatFloat: real -> string,
    show: Value -> string,                       // fmt.Sprintf("%v", v)
    regexp: (string, string) -> Result<bool>,
    call: (string, seq<Value>) -> Result<Value>  // now(), daysago(x), ...
  )

  /** The empty string is neither a date nor a number, no number prints as nothing, and only zero as 0. */
  ghost predicate Sane(w: World) {
    && w.parseTime("").None? && w.parseFloat("").None?
    && (forall x: real :: w.formatFloat(x) != "")
    && (forall x: real :: w.formatFloat(x) == "0" <==> x == 0.0) && w.parseFloat("0") == Some(0.0)
  }

  // --- Evaluation ---

  type Data = map<Name, Value>

  /** An unknown field reads as the empty string. */
  function Read(data: Data, name: Name): Value { if name in data then data[name] else Text("") }

  /** truthy: not empty, and neither "false" nor "0" in any case. */
  predicate Truthy(s: string) { s != "" && s != "0" && !IsFalse(s) }

  predicate IsFalse(s: string) {
    && |s| == 5 && s[0] in {'f', 'F'} && s[1] in {'a', 'A'} && s[2] in {'l', 'L'} && s[3] in {'s', 'S'} &&
      s[4] in {'e', 'E'}
  }

  function AsBool(v: Value): Result<bool> {
    match v
    case Flag(b) => Ok(b)
    case Text(s) => Ok(Truthy(s))
    case Number(n) => Ok(n != 0.0)
    case Nil => Ok(false)
    case _ => Err
  }

  function ToTime(w: World, v: Value): Option<int> {
    match v
    case Moment(t) => Some(t)
    case Text(s) => w.parseTime(s)
    case _ => None
  }

  function ToFloat(w: World, v: Value): Option<real> {
    match v
    case Number(n) => Some(n)
    case Text(s) => w.parseFloat(s)
    case _ => None
  }

  function AsString(w: World, v: Value): string {
    match v
    case Text(s) => s
    case Flag(b) => if b then "true" else "false"
    case Number(n) => w.formatFloat(n)
    case Nil => ""
    case _ => w.show(v)
  }

  function Abs(x: real): real { if x < 0.0 then -x else x }

  predicate CompareEq(w: World, l: Value, r: Value) {
    if ToTime(w, l).Some? && ToTime(w, r).Some? then ToTime(w, l) == ToTime(w, r)
    else if ToFloat(w, l).Some? &&
      ToFloat(w, r).Some? then Abs(ToFloat(w, l).value - ToFloat(w, r).value) < 0.000000000001
    else AsString(w, l) == AsString(w, r)
  }

  /** The order comparisons reduce to: less, and equal, on dates, on numbers, or on strings. */
  function CompareNum(w: World, l: Value, r: Value): (bool, bool) {
    if ToTime(w, l).Some? && ToTime(w, r).Some? then
      (ToTime(w, l).value < ToTime(w, r).value, ToTime(w, l) == ToTime(w, r))
    else if ToFloat(w, l).Some? && ToFloat(w, r).Some? then
      (ToFloat(w, l).value < ToFloat(w, r).value, ToFloat(w, l) == ToFloat(w, r))
    else (Graph.Less(AsString(w, l), AsString(w, r)), AsString(w, l) == AsString(w, r))
  }

  predicate PartAt(s: string, part: string, i: nat) { i + |part| <= |s| && s[i..i + |part|] == part }

  predicate Contains(s: string, part: string) { exists i: nat :: i <= |s| && PartAt(s, part, i) }

  predicate IsAnd(op: string) { op == "and" || op == "&&" }

  predicate IsOr(op: string) { op == "or" || op == "||" }

  /** A comparison of two values; any operator not listed, such as an upper-case AND, is an error. */
  function Compare(w: World, op: string, l: Value, r: Value): Result<bool> {
    var (less, equal) := CompareNum(w, l, r);
    if op == "contains" then Ok(Contains(AsString(w, l), AsString(w, r)))
    else if op == "matches" then w.regexp(AsString(w, r), AsString(w, l))
    else if op == "==" then Ok(CompareEq(w, l, r))
    else if op == "!=" then Ok(!CompareEq(w, l, r))
    else if op == "<" then Ok(less)
    else if op == "<=" then Ok(less || equal)
    else if op == ">" then Ok(!less && !equal)
    else if op == ">=" then Ok(!less)
    else Err
  }

  function Eval(w: World, n: Node, data: Data): Result<Value>
    decreases n, 0
  {
    match n
    case Bool(b) => Ok(Flag(b))
    case Str(s) => Ok(Text(s))
    case Num(x) => Ok(Number(x))
    case Ident(name) => Ok(Read(data, name))
    case Func(fn, args) =>
      if args == [] then w.call(fn, [])
      else
        var v := Eval(w, args[0], data);
        if v.Err? then Err else w.call(fn, [v.value])
    case Unary(_, arg) =>
      var b := Test(w, arg, data);
      if b.Err? then Err else Ok(Flag(!b.value))
    case Binary(op, left, right) =>
      if IsAnd(op) || IsOr(op) then
        var l := Test(w, left, data);
        if l.Err? then Err
        else if l.value == IsOr(op) then Ok(Flag(l.value))
        else
          var r := Test(w, right, data);
          if r.Err? then Err else Ok(Flag(r.value))
      else
        var l, r := Eval(w, left, data), Eval(w, right, data);
        if l.Err? || r.Err? then Err
        else
          var c := Compare(w, op, l.value, r.value);
          if c.Err? then Err else Ok(Flag(c.value))
  }

  /** An expression as a condition. */
  function Test(w: World, n: Node, data: Data): Result<bool>
    decreases n, 1
  {
    var v := Eval(w, n, data);
    if v.Err? then Err else AsBool(v.value)
  }

  // --- Inference ---

  const RESERVED: set<Name> := {"state", "State", "reject_reason", "RejectReason"}

  function FieldOf(n: Node): seq<Name> { if n.Ident? && n.name !in RESERVED then [n.name] else [] }

  predicate IsBlankLiteral(n: Node) { n == Str("") }

  predicate IsZeroLiteral(n: Node) { n == Num(0.0) }

  function Both(l: seq<Name>, r: seq<Name>): seq<Name> {
    if r == [] then []
    else Both(l, r[..|r| - 1]) + if r[|r| - 1] in l then [r[|r| - 1]] else []
  }

  lemma {:induction false} InBoth(l: seq<Name>, r: seq<Name>)
    ensures forall f :: f in Both(l, r) <==> f in l && f in r
  {
    if r != [] {
      InBoth(l, r[..|r| - 1]);
      assert r == r[..|r| - 1] + [r[|r| - 1]];
    }
  }

  /** The fields taken to be set when the expression is true. */
  function Narrowed(n: Node): seq<Name> {
    if !n.Binary? then []
    else if IsAnd(n.op) then Narrowed(n.left) + Narrowed(n.right)
    else if IsOr(n.op) then Both(Narrowed(n.left), Narrowed(n.right))
    else if n.op == "==" then if IsBlankLiteral(n.right) || IsZeroLiteral(n.right) then [] else FieldOf(n.left)
    else FieldOf(n.left) + FieldOf(n.right)
  }

  /** The fields taken to be unset when the expression is true. */
  function AbsenceRemoved(n: Node): seq<Name> {
    if !n.Binary? then []
    else if IsAnd(n.op) then AbsenceRemoved(n.left) + AbsenceRemoved(n.right)
    else if IsOr(n.op) then Both(AbsenceRemoved(n.left), AbsenceRemoved(n.right))
    else if n.op == "==" && (IsBlankLiteral(n.right) || IsZeroLiteral(n.right)) then FieldOf(n.left)
    else []
  }

  /** The fields taken to be set when the expression is false; None when nothing can be inferred. */
  function AbsencePromoted(n: Node): Option<seq<Name>> {
    if !n.Binary? || IsAnd(n.op) then None
    else if IsOr(n.op) then
      var l, r := AbsencePromoted(n.left), AbsencePromoted(n.right);
      if l.None? || r.None? then None else Some(l.value + r.value)
    else if n.op == "==" && FieldOf(n.left) != [] &&
      (IsBlankLiteral(n.right) || IsZeroLiteral(n.right)) then Some(FieldOf(n.left))
    else None
  }

  /** The fields taken to be unset when the expression is false; None when nothing can be inferred. */
  function PresenceRemoved(n: Node): Option<seq<Name>> {
    if !n.Binary? || IsAnd(n.op) then None
    else if IsOr(n.op) then
      var l, r := PresenceRemoved(n.left), PresenceRemoved(n.right);
      if l.None? || r.None? then None else Some(l.value + r.value)
    else if FieldOf(n.left) != [] &&
      ((n.op == "!=" && IsBlankLiteral(n.right)) || (n.op == ">" && IsZeroLiteral(n.right))) then Some(FieldOf(n.left))
    else None
  }

  /** The walks append to a list their caller passes in. */
  method CollectBoth(l: seq<Name>, r: seq<Name>, out: seq<Name>) returns (more: seq<Name>)
    ensures more == out + Both(l, r)
  {
    more := out;
    for i := 0 to |r|
      invariant more == out + Both(l, r[..i])
    {
      assert r[..i + 1][..i] == r[..i];
      if r[i] in l { more := more + [r[i]]; }
    }
    assert r[..|r|] == r;
  }

  method NarrowCertain(n: Node, out: seq<Name>) returns (more: seq<Name>)
    ensures more == out + Narrowed(n)
    decreases n
  {
    more := out;
    if !n.Binary? { return; }
    if IsAnd(n.op) {
      more := NarrowCertain(n.left, more);
      more := NarrowCertain(n.right, more);
      assert out + Narrowed(n.left) + Narrowed(n.right) == out + Narrowed(n);
    } else if IsOr(n.op) {
      var left := NarrowCertain(n.left, []);
      var right := NarrowCertain(n.right, []);
      assert left == Narrowed(n.left) && right == Narrowed(n.right);
      more := CollectBoth(left, right, more);
    } else if n.op == "==" {
      if !IsBlankLiteral(n.right) && !IsZeroLiteral(n.right) { more := more + FieldOf(n.left); }
    } else {
      more := more + FieldOf(n.left) + FieldOf(n.right);
      assert more == out + (FieldOf(n.left) + FieldOf(n.right));
    }
  }

  method CollectAbsent(n: Node, out: seq<Name>) returns (more: seq<Name>)
    ensures more == out + AbsenceRemoved(n)
    decreases n
  {
    more := out;
    if !n.Binary? { return; }
    if IsAnd(n.op) {
      more := CollectAbsent(n.left, more);
      more := CollectAbsent(n.right, more);
      assert out + AbsenceRemoved(n.left) + AbsenceRemoved(n.right) == out + AbsenceRemoved(n);
    } else if IsOr(n.op) {
      var left := CollectAbsent(n.left, []);
      var right := CollectAbsent(n.right, []);
      assert left == AbsenceRemoved(n.left) && right == AbsenceRemoved(n.right);
      more := CollectBoth(left, right, more);
    } else if n.op == "==" && (IsBlankLiteral(n.right) || IsZeroLiteral(n.right)) {
      more := more + FieldOf(n.left);
    }
  }

  // --- What is inferred, by the ways an expression can be true ---

  /** A way the expression can be true: a set of conditions that are all true together. */
  ghost predicate IsWay(n: Node, way: set<Node>) {
    if n.Binary? && IsAnd(n.op) then exists l, r :: IsWay(n.left, l) && IsWay(n.right, r) && way == l + r
    else if n.Binary? && IsOr(n.op) then IsWay(n.left, way) || IsWay(n.right, way)
    else way == {n}
  }

  /** Whenever an expression is true, so are all conditions of one of its ways. */
  lemma {:induction false} WayTrue(w: World, n: Node, data: Data) returns (way: set<Node>)
    requires IsTrue(Test(w, n, data))
    ensures IsWay(n, way) && forall c :: c in way ==> IsTrue(Test(w, c, data))
    decreases n
  {
    hide Test;
    way := {n};
    if n.Binary? && (IsAnd(n.op) || IsOr(n.op)) {
      TestLogic(w, n, data);
      if IsAnd(n.op) {
        var l := WayTrue(w, n.left, data);
        var r := WayTrue(w, n.right, data);
        way := l + r;
      } else if IsTrue(Test(w, n.left, data)) {
        way := WayTrue(w, n.left, data);
      } else {
        way := WayTrue(w, n.right, data);
      }
    }
  }

  /** A comparison that names the field, other than one for equality with nothing. */
  predicate Mentions(c: Node, f: Name) {
    && c.Binary? && f !in RESERVED
    && if c.op == "==" then c.left == Ident(f) && c.right != Str("") && c.right != Num(0.0)
       else c.left == Ident(f) || c.right == Ident(f)
  }

  /** A comparison for equality with nothing. */
  predicate Denies(c: Node, f: Name) {
    c.Binary? && f !in RESERVED && c.op == "==" && c.left == Ident(f) && (c.right == Str("") || c.right == Num(0.0))
  }

  ghost predicate Has(way: set<Node>, holds: Node -> bool) { exists c :: c in way && holds(c) }

  /** Every way the expression can be true has such a condition. */
  ghost predicate Always(n: Node, holds: Node -> bool) { forall way :: IsWay(n, way) ==> Has(way, holds) }

  lemma HasUnion(a: set<Node>, b: set<Node>, holds: Node -> bool)
    ensures Has(a + b, holds) <==> Has(a, holds) || Has(b, holds)
  {
  }

  lemma {:induction false} SomeWay(n: Node)
    ensures exists way :: IsWay(n, way)
    decreases n
  {
    if n.Binary? && IsAnd(n.op) {
      SomeWay(n.left);
      SomeWay(n.right);
      var l :| IsWay(n.left, l);
      var r :| IsWay(n.right, r);
      assert IsWay(n, l + r);
    } else if n.Binary? && IsOr(n.op) {
      SomeWay(n.left);
      var way :| IsWay(n.left, way);
      assert IsWay(n, way);
    } else {
      assert IsWay(n, {n});
    }
  }

  lemma AlwaysAnd(n: Node, holds: Node -> bool)
    requires n.Binary? && IsAnd(n.op)
    ensures Always(n, holds) <==> Always(n.left, holds) || Always(n.right, holds)
  {
    if !Always(n.left, holds) && !Always(n.right, holds) {
      var l :| IsWay(n.left, l) && !Has(l, holds);
      var r :| IsWay(n.right, r) && !Has(r, holds);
      HasUnion(l, r, holds);
      assert IsWay(n, l + r);
    }
    forall way | IsWay(n, way) && (Always(n.left, holds) || Always(n.right, holds)) ensures Has(way, holds) {
      var l, r :| IsWay(n.left, l) && IsWay(n.right, r) && way == l + r;
      HasUnion(l, r, holds);
    }
  }

  lemma AlwaysOr(n: Node, holds: Node -> bool)
    requires n.Binary? && !IsAnd(n.op) && IsOr(n.op)
    ensures Always(n, holds) <==> Always(n.left, holds) && Always(n.right, holds)
  {
    assert forall way :: IsWay(n, way) <==> IsWay(n.left, way) || IsWay(n.right, way);
  }

  lemma AlwaysLeaf(n: Node, holds: Node -> bool)
    requires !n.Binary? || (!IsAnd(n.op) && !IsOr(n.op))
    ensures Always(n, holds) <==> holds(n)
  {
    assert IsWay(n, {n}) && n in {n};
    assert forall way :: IsWay(n, way) ==> way == {n};
  }

  /** A field is taken for set exactly when every way the expression can be true mentions it. */
  lemma {:induction false} NarrowedIff(n: Node, f: Name)
    ensures f in Narrowed(n) <==> Always(n, c => Mentions(c, f))
    decreases n
  {
    hide Always;
    var holds := c => Mentions(c, f);
    if n.Binary? && (IsAnd(n.op) || IsOr(n.op)) {
      NarrowedIff(n.left, f);
      NarrowedIff(n.right, f);
      InBoth(Narrowed(n.left), Narrowed(n.right));
      if IsAnd(n.op) { AlwaysAnd(n, holds); } else { AlwaysOr(n, holds); }
    } else {
      AlwaysLeaf(n, holds);
    }
  }

  /** And for unset exactly when every way compares it with nothing. */
  lemma {:induction false} RemovedIff(n: Node, f: Name)
    ensures f in AbsenceRemoved(n) <==> Always(n, c => Denies(c, f))
    decreases n
  {
    hide Always;
    var holds := c => Denies(c, f);
    if n.Binary? && (IsAnd(n.op) || IsOr(n.op)) {
      RemovedIff(n.left, f);
      RemovedIff(n.right, f);
      InBoth(AbsenceRemoved(n.left), AbsenceRemoved(n.right));
      if IsAnd(n.op) { AlwaysAnd(n, holds); } else { AlwaysOr(n, holds); }
    } else {
      AlwaysLeaf(n, holds);
    }
  }

  /** The alternatives of an expression, any of which makes it true. */
  function Alternatives(n: Node): set<Node> {
    if n.Binary? && IsOr(n.op) then Alternatives(n.left) + Alternatives(n.right) else {n}
  }

  ghost predicate DeniesSome(c: Node) { exists f :: Denies(c, f) }

  ghost predicate SomeDenies(cs: set<Node>, f: Name) { exists c :: c in cs && Denies(c, f) }

  ghost predicate AllDeny(cs: set<Node>) { forall c :: c in cs ==> DeniesSome(c) }

  lemma DenyUnion(a: set<Node>, b: set<Node>)
    ensures AllDeny(a + b) <==> AllDeny(a) && AllDeny(b)
    ensures forall f :: SomeDenies(a + b, f) <==> SomeDenies(a, f) || SomeDenies(b, f)
  {
  }

  lemma DenyOne(cs: set<Node>, c: Node)
    requires cs == {c}
    ensures AllDeny(cs) <==> DeniesSome(c)
    ensures forall f :: SomeDenies(cs, f) <==> Denies(c, f)
  {
    assert c in cs;
  }

  /** Something is inferred from false alternatives exactly when each compares a field with nothing: those fields. */
  lemma {:induction false} PromotedIff(n: Node)
    ensures AbsencePromoted(n).Some? <==> AllDeny(Alternatives(n))
    ensures AbsencePromoted(n).Some? ==>
      forall f :: f in AbsencePromoted(n).value <==> SomeDenies(Alternatives(n), f)
    decreases n
  {
    hide AllDeny, SomeDenies, DeniesSome;
    if n.Binary? && IsOr(n.op) && !IsAnd(n.op) {
      PromotedIff(n.left);
      PromotedIff(n.right);
      DenyUnion(Alternatives(n.left), Alternatives(n.right));
    } else {
      DenyOne(Alternatives(n), n);
      DeniesLeaf(n);
    }
  }

  lemma DeniesLeaf(n: Node)
    requires !n.Binary? || !IsOr(n.op)
    ensures AbsencePromoted(n).Some? <==> DeniesSome(n)
    ensures AbsencePromoted(n).Some? ==> forall f :: f in AbsencePromoted(n).value <==> Denies(n, f)
  {
    if AbsencePromoted(n).Some? { assert Denies(n, n.left.name); }
  }

  // --- When the inferences are right ---

  predicate IsTrue(r: Result<bool>) { r == Ok(true) }

  /** Nil and the empty string: what a field that was never set reads like. */
  predicate Blank(v: Value) { v.Nil? || v == Text("") }

  /** The field is there, and holds something. */
  predicate Present(data: Data, f: Name) { f in data && !Blank(data[f]) }

  /** The field is missing, empty or zero. */
  predicate Unset(w: World, data: Data, f: Name) {
    var v := Read(data, f);
    AsString(w, v) in {"", "0"} || (ToFloat(w, v).Some? && Abs(ToFloat(w, v).value) < 0.000000000001)
  }

  lemma TestLogic(w: World, n: Node, data: Data)
    requires n.Binary?
    ensures IsAnd(n.op) && IsTrue(Test(w, n, data)) ==> IsTrue(Test(w, n.left, data)) && IsTrue(Test(w, n.right, data))
    ensures IsOr(n.op) && IsTrue(Test(w, n, data)) ==> IsTrue(Test(w, n.left, data)) || IsTrue(Test(w, n.right, data))
    ensures IsOr(n.op) && Test(w, n, data) == Ok(false) ==> Test(w, n.left, data) == Test(w, n.right, data) == Ok(false)
  {
    var v := Eval(w, n, data);
    if IsAnd(n.op) || IsOr(n.op) {
      var l := Test(w, n.left, data);
      assert Test(w, n, data) == if v.Err? then Err else AsBool(v.value);
    }
  }

  lemma TestLeaf(w: World, n: Node, data: Data)
    requires n.Binary? && !IsAnd(n.op) && !IsOr(n.op)
    ensures var l, r := Eval(w, n.left, data), Eval(w, n.right, data);
      Test(w, n, data) == if l.Err? || r.Err? then Err else Compare(w, n.op, l.value, r.value)
  {
    hide Compare;
  }

  lemma EvalField(w: World, n: Node, data: Data, f: Name)
    requires f in FieldOf(n)
    ensures Eval(w, n, data) == Ok(Read(data, f)) && n == Ident(f)
  {
  }

  /** Blank values compare like the empty string. */
  lemma BlankCompares(w: World, op: string, v: Value, other: Value)
    requires Sane(w) && Blank(v)
    ensures Compare(w, op, v, other) == Compare(w, op, Text(""), other)
    ensures Compare(w, op, other, v) == Compare(w, op, other, Text(""))
  {
    assert ToTime(w, v).None? && ToFloat(w, v).None? && AsString(w, v) == "";
  }

  /** The values an operand can take. */
  ghost predicate Possible(n: Node, v: Value) {
    match n
    case Str(s) => v == Text(s)
    case Num(x) => v == Number(x)
    case Bool(b) => v == Flag(b)
    case _ => true
  }

  /** A comparison whose fields are promoted is never true of an unset field. */
  ghost predicate LeafFits(w: World, n: Node)
    requires n.Binary?
  {
    && (forall f, v :: f in FieldOf(n.left) && Possible(n.right, v) ==> !IsTrue(Compare(w, n.op, Text(""), v)))
    && (n.op != "==" ==> forall f, v :: f in FieldOf(n.right) && Possible(n.left, v) ==>
      !IsTrue(Compare(w, n.op, v, Text(""))))
  }

  /** Every comparison the inference promotes from fits. */
  ghost predicate Fits(w: World, n: Node) {
    n.Binary? ==>
      if IsAnd(n.op) || IsOr(n.op) then Fits(w, n.left) && Fits(w, n.right)
      else Narrowed(n) == [] || LeafFits(w, n)
  }

  lemma EvalPossible(w: World, n: Node, data: Data)
    ensures Eval(w, n, data).Ok? ==> Possible(n, Eval(w, n, data).value)
  {
  }

  /** If such an expression is true, every field it narrows is set. */
  lemma {:induction false} NarrowedPresent(w: World, n: Node, data: Data)
    requires Sane(w) && Fits(w, n) && IsTrue(Test(w, n, data))
    ensures forall f :: f in Narrowed(n) ==> Present(data, f)
    decreases n
  {
    if n.Binary? {
      TestLogic(w, n, data);
      if IsAnd(n.op) {
        NarrowedPresent(w, n.left, data);
        NarrowedPresent(w, n.right, data);
      } else if IsOr(n.op) {
        InBoth(Narrowed(n.left), Narrowed(n.right));
        if IsTrue(Test(w, n.left, data)) {
          NarrowedPresent(w, n.left, data);
        } else {
          NarrowedPresent(w, n.right, data);
        }
      } else {
        LeafPresent(w, n, data);
      }
    }
  }

  lemma LeafPresent(w: World, n: Node, data: Data)
    requires Sane(w) && n.Binary? && !IsAnd(n.op) && !IsOr(n.op) && Fits(w, n) && IsTrue(Test(w, n, data))
    ensures forall f :: f in Narrowed(n) ==> Present(data, f)
  {
    hide Compare;
    TestLeaf(w, n, data);
    var l, r := Eval(w, n.left, data), Eval(w, n.right, data);
    assert IsTrue(Compare(w, n.op, l.value, r.value));
    EvalPossible(w, n.left, data);
    EvalPossible(w, n.right, data);
    if Blank(l.value) { BlankCompares(w, n.op, l.value, r.value); }
    if Blank(r.value) { BlankCompares(w, n.op, r.value, l.value); }
  }

  /** Narrowing from one comparison of a field with a literal is right for all data exactly when it fits. */
  lemma LeafExact(w: World, n: Node, f: Name)
    requires Sane(w) && n.Binary? && !IsAnd(n.op) && !IsOr(n.op)
    requires n.left == Ident(f) && (n.right.Str? || n.right.Num? || n.right.Bool?) && f in Narrowed(n)
    ensures LeafFits(w, n) <==> forall data :: IsTrue(Test(w, n, data)) ==> Present(data, f)
  {
    hide Compare;
    if LeafFits(w, n) {
      forall data | IsTrue(Test(w, n, data)) ensures Present(data, f) {
        LeafPresent(w, n, data);
      }
    } else {
      var v :| Possible(n.right, v) && IsTrue(Compare(w, n.op, Text(""), v));
      var nothing: Data := map[];
      assert Eval(w, n.left, nothing) == Ok(Text("")) && Eval(w, n.right, nothing) == Ok(v);
      TestLeaf(w, n, nothing);
      assert IsTrue(Test(w, n, nothing)) && !Present(nothing, f);
    }
  }

  /** Which comparisons with a literal fit: equality, containment and at-least with one that is not blank, and
    greater with any. */
  lemma FittingComparisons(w: World, op: string, lit: Node, f: Name)
    requires Sane(w) && (lit.Str? || lit.Num?)
    ensures op == ">" ==> LeafFits(w, Binary(op, Ident(f), lit))
    ensures op in {"==", ">=", "contains"} && !IsBlankLiteral(lit) ==> LeafFits(w, Binary(op, Ident(f), lit))
    ensures op in {"!=", "<", "<="} && !IsBlankLiteral(lit) && f !in RESERVED ==>
      !LeafFits(w, Binary(op, Ident(f), lit))
  {
    var v := if lit.Str? then Text(lit.s) else Number(lit.n);
    assert Possible(lit, v);
    assert AsString(w, v) == "" <==> IsBlankLiteral(lit);
    assert ToTime(w, Text("")).None? && ToFloat(w, Text("")).None?;
    if f !in RESERVED { assert f in FieldOf(Ident(f)); }
  }

  /** If an expression is true, every field it takes for unset is missing, empty or zero. */
  lemma {:induction false} RemovedUnset(w: World, n: Node, data: Data)
    requires Sane(w) && IsTrue(Test(w, n, data))
    ensures forall f :: f in AbsenceRemoved(n) ==> Unset(w, data, f)
    decreases n
  {
    if n.Binary? {
      TestLogic(w, n, data);
      if IsAnd(n.op) {
        RemovedUnset(w, n.left, data);
        RemovedUnset(w, n.right, data);
      } else if IsOr(n.op) {
        InBoth(AbsenceRemoved(n.left), AbsenceRemoved(n.right));
        if IsTrue(Test(w, n.left, data)) {
          RemovedUnset(w, n.left, data);
        } else {
          RemovedUnset(w, n.right, data);
        }
      } else {
        TestLeaf(w, n, data);
        forall f | f in AbsenceRemoved(n) ensures Unset(w, data, f) {
          EvalField(w, n.left, data, f);
        }
      }
    }
  }

  /** Among the alternatives is a comparison of this field with the empty string, or with zero. */
  predicate ComparesBlank(n: Node, f: Name) {
    n.Binary? &&
    if IsOr(n.op) then ComparesBlank(n.left, f) || ComparesBlank(n.right, f)
    else f in FieldOf(n.left) && IsBlankLiteral(n.right)
  }

  predicate ComparesZero(n: Node, f: Name) {
    n.Binary? &&
    if IsOr(n.op) then ComparesZero(n.left, f) || ComparesZero(n.right, f)
    else f in FieldOf(n.left) && IsZeroLiteral(n.right)
  }

  lemma {:induction false} PromotedCompared(n: Node)
    requires AbsencePromoted(n).Some?
    ensures forall f :: f in AbsencePromoted(n).value <==> ComparesBlank(n, f) || ComparesZero(n, f)
    decreases n
  {
    if IsOr(n.op) {
      PromotedCompared(n.left);
      PromotedCompared(n.right);
    }
  }

  /** If the alternatives are false, every field compared with the empty string is set. */
  lemma {:induction false} ComparedPresent(w: World, n: Node, data: Data, f: Name)
    requires Sane(w) && AbsencePromoted(n).Some? && Test(w, n, data) == Ok(false) && ComparesBlank(n, f)
    ensures Present(data, f)
    decreases n
  {
    TestLogic(w, n, data);
    if IsOr(n.op) {
      if ComparesBlank(n.left, f) { ComparedPresent(w, n.left, data, f); }
        else { ComparedPresent(w, n.right, data, f); }
    } else {
      TestLeaf(w, n, data);
      EvalField(w, n.left, data, f);
      if !Present(data, f) { BlankCompares(w, "==", Read(data, f), Text("")); }
    }
  }

  /** Every field the inference promotes from false alternatives is set. */
  ghost predicate PromotesRightly(w: World, n: Node)
    requires AbsencePromoted(n).Some?
  {
    forall data, f :: Test(w, n, data) == Ok(false) && f in AbsencePromoted(n).value ==> Present(data, f)
  }

  /** That is so exactly when every field compared with zero is compared with the empty string too. */
  lemma PromotedPresentIff(w: World, n: Node)
    requires Sane(w) && AbsencePromoted(n).Some?
    ensures PromotesRightly(w, n) <==> forall f :: ComparesZero(n, f) ==> ComparesBlank(n, f)
  {
    hide ComparesZero, ComparesBlank, Test, AbsencePromoted;
    PromotedCompared(n);
    if forall f :: ComparesZero(n, f) ==> ComparesBlank(n, f) {
      forall data, f | Test(w, n, data) == Ok(false) && f in AbsencePromoted(n).value ensures Present(data, f) {
        ComparedPresent(w, n, data, f);
      }
    } else {
      var f :| ComparesZero(n, f) && !ComparesBlank(n, f);
      var data := Flagged(AbsencePromoted(n).value, f);
      FalseWithout(w, n, data, f);
      assert !Present(data, f);
    }
  }

  /** These fields set, but for one. */
  function Flagged(fields: seq<Name>, missing: Name): Data { map f | f in fields && f != missing :: Flag(true) }

  /** A missing field is not equal to zero, nor are flags, which are not empty either. */
  lemma {:induction false} FalseWithout(w: World, n: Node, data: Data, missing: Name)
    requires Sane(w) && AbsencePromoted(n).Some? && !ComparesBlank(n, missing) && missing !in data
    requires forall f :: f in AbsencePromoted(n).value && f != missing ==> f in data && data[f] == Flag(true)
    ensures Test(w, n, data) == Ok(false)
    decreases n
  {
    if IsOr(n.op) {
      FalseWithout(w, n.left, data, missing);
      FalseWithout(w, n.right, data, missing);
      var v := Eval(w, n, data);
      assert v == Ok(Flag(false));
    } else {
      TestLeaf(w, n, data);
      var f := n.left.name;
      EvalField(w, n.left, data, f);
      assert f in AbsencePromoted(n).value;
      if IsZeroLiteral(n.right) {
        assert Eval(w, n.right, data) == Ok(Number(0.0));
      } else {
        assert Eval(w, n.right, data) == Ok(Text(""));
      }
    }
  }

  function EqualsZero(f: Name): Node { Binary("==", Ident(f), Num(0.0)) }

  function EqualsBlank(f: Name): Node { Binary("==", Ident(f), Str("")) }

  /** So `f == 0` alone promotes wrongly, */
  lemma ZeroPromotedMissing(w: World, f: Name)
    requires Sane(w) && f !in RESERVED
    ensures AbsencePromoted(EqualsZero(f)) == Some([f]) && !PromotesRightly(w, EqualsZero(f))
  {
    hide PromotesRightly;
    assert ComparesZero(EqualsZero(f), f) && !ComparesBlank(EqualsZero(f), f);
    PromotedPresentIff(w, EqualsZero(f));
  }

  /** and `f == 0 or f == ""` rightly. */
  lemma ZeroOrBlankPromotes(w: World, f: Name)
    requires Sane(w) && f !in RESERVED
    ensures var n := Binary("or", EqualsZero(f), EqualsBlank(f));
      AbsencePromoted(n) == Some([f, f]) && PromotesRightly(w, n)
  {
    hide PromotesRightly;
    var n := Binary("or", EqualsZero(f), EqualsBlank(f));
    assert AbsencePromoted(EqualsZero(f)) == Some([f]) && AbsencePromoted(EqualsBlank(f)) == Some([f]);
    assert [f] + [f] == [f, f];
    assert AbsencePromoted(n) == Some([f] + [f]);
    assert ComparesBlank(EqualsBlank(f), f);
    assert forall g :: ComparesZero(EqualsZero(f), g) || ComparesZero(EqualsBlank(f), g) ==> g == f;
    assert forall g :: ComparesZero(n, g) ==> ComparesBlank(n, g);
    PromotedPresentIff(w, n);
  }

  // --- What a false presence test says ---

  /** Among the alternatives the field is tested to be other than the empty string, or greater than zero. */
  predicate TestsFilled(n: Node, f: Name) {
    n.Binary? &&
    if IsOr(n.op) then TestsFilled(n.left, f) || TestsFilled(n.right, f)
    else f in FieldOf(n.left) && n.op == "!=" && IsBlankLiteral(n.right)
  }

  predicate TestsPositive(n: Node, f: Name) {
    n.Binary? &&
    if IsOr(n.op) then TestsPositive(n.left, f) || TestsPositive(n.right, f)
    else f in FieldOf(n.left) && n.op == ">" && IsZeroLiteral(n.right)
  }

  lemma {:induction false} RemovedTested(n: Node)
    requires PresenceRemoved(n).Some?
    ensures forall f :: f in PresenceRemoved(n).value <==> TestsFilled(n, f) || TestsPositive(n, f)
    decreases n
  {
    if IsOr(n.op) {
      RemovedTested(n.left);
      RemovedTested(n.right);
    }
  }

  /** If the alternatives are false, every field tested to be other than the empty string is unset. */
  lemma {:induction false} TestedUnset(w: World, n: Node, data: Data, f: Name)
    requires Sane(w) && PresenceRemoved(n).Some? && Test(w, n, data) == Ok(false) && TestsFilled(n, f)
    ensures Unset(w, data, f)
    decreases n
  {
    TestLogic(w, n, data);
    if IsOr(n.op) {
      if TestsFilled(n.left, f) { TestedUnset(w, n.left, data, f); } else { TestedUnset(w, n.right, data, f); }
    } else {
      TestLeaf(w, n, data);
      EvalField(w, n.left, data, f);
      assert Eval(w, n.right, data) == Ok(Text(""));
    }
  }

  /** Every field the inference removes after false alternatives is unset. */
  ghost predicate RemovesRightly(w: World, n: Node)
    requires PresenceRemoved(n).Some?
  {
    forall data, f :: Test(w, n, data) == Ok(false) && f in PresenceRemoved(n).value ==> Unset(w, data, f)
  }

  /** That is so exactly when every field tested to be positive is tested to be other than the empty string too. */
  lemma RemovedUnsetIff(w: World, n: Node)
    requires Sane(w) && PresenceRemoved(n).Some?
    ensures RemovesRightly(w, n) <==> forall f :: TestsPositive(n, f) ==> TestsFilled(n, f)
  {
    hide TestsPositive, TestsFilled, Test, PresenceRemoved, Unset;
    RemovedTested(n);
    if forall f :: TestsPositive(n, f) ==> TestsFilled(n, f) {
      forall data, f | Test(w, n, data) == Ok(false) && f in PresenceRemoved(n).value ensures Unset(w, data, f) {
        TestedUnset(w, n, data, f);
      }
    } else {
      var f :| TestsPositive(n, f) && !TestsFilled(n, f);
      var data: Data := map[f := Number(-1.0)];
      FalseNegative(w, n, data, f);
      assert !Unset(w, data, f) by { NegativeSet(w, data, f); }
    }
  }

  lemma NegativeSet(w: World, data: Data, f: Name)
    requires Sane(w) && f in data && data[f] == Number(-1.0)
    ensures !Unset(w, data, f)
  {
  }

  /** A negative field is not positive, and missing ones are neither filled nor positive. */
  lemma {:induction false} FalseNegative(w: World, n: Node, data: Data, f: Name)
    requires Sane(w) && PresenceRemoved(n).Some? && !TestsFilled(n, f) && data == map[f := Number(-1.0)]
    ensures Test(w, n, data) == Ok(false)
    decreases n
  {
    if IsOr(n.op) {
      FalseNegative(w, n.left, data, f);
      FalseNegative(w, n.right, data, f);
      var v := Eval(w, n, data);
      assert v == Ok(Flag(false));
    } else {
      TestLeaf(w, n, data);
      var g := n.left.name;
      EvalField(w, n.left, data, g);
      assert Eval(w, n.right, data) == Ok(if n.op == ">" then Number(0.0) else Text(""));
      BelowZero(w);
    }
  }

  lemma BelowZero(w: World)
    requires Sane(w)
    ensures Compare(w, ">", Text(""), Number(0.0)) == Ok(false) == Compare(w, ">", Number(-1.0), Number(0.0))
    ensures Compare(w, "!=", Text(""), Text("")) == Ok(false)
  {
    assert Graph.Less("", "0");
  }
}
