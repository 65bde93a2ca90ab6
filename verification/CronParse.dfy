/**
  The cron parser (internal/scheduler/cron.go). Go strings are byte strings.
 */
module CronParse {
  import opened Strconv
  import opened Calendar
  import opened Cron
  import CronRecurrence

  const COMMA: byte := 44
  const SLASH: byte := 47
  const STAR: Bytes := [42]

  /** What one comma-separated part stands for. */
  datatype Part = AnyValue | Range(lo: int, hi: int, step: int)

  /** strings.Cut at the first b: what is before it and, if it occurs, what is after. */
  function Cut(s: Bytes, b: byte): (Bytes, Option<Bytes>) {
    var i := IndexByte(s, 0, b);
    if i < |s| then (s[..i], Some(s[i + 1..])) else (s, None)
  }

  function Split(s: Bytes, b: byte): (parts: seq<Bytes>)
    ensures parts != []
    decreases |s|
  {
    var (head, tail) := Cut(s, b);
    if tail.None? then [head] else [head] + Split(tail.value, b)
  }

  /** The part before any "/step": "*", "a-b" or "a". */
  function ReadBase(base: Bytes, step: int, min: int, max: int): Option<Part> {
    if base == STAR then
      Some(if step == 1 then AnyValue else Range(min, max, step))
    else
      var (loStr, hiStr) := Cut(base, MINUS);
      var lo := ParseInt(loStr);
      var hi := if hiStr.Some? then ParseInt(hiStr.value) else lo;
      if lo.None? || hi.None? then None
      else if lo.value < min || hi.value > max || lo.value > hi.value then None
      else Some(Range(lo.value, hi.value, step))
  }

  function ReadPart(part: Bytes, min: int, max: int): (r: Option<Part>)
    requires 0 <= min <= max < 60
    ensures r.Some? && r.value.Range? ==> min <= r.value.lo <= r.value.hi <= max && 0 < r.value.step <= MAX_INT64
  {
    var (base, stepStr) := Cut(part, SLASH);
    if stepStr.None? then ReadBase(base, 1, min, max)
    else
      var step := ParseInt(stepStr.value);
      if step.None? || step.value <= 0 then None else ReadBase(base, step.value, min, max)
  }

  /** v is lo, lo + step, lo + 2 * step, and so on. */
  predicate Stepped(lo: int, step: int, v: int)
    requires step > 0
    decreases v - lo
  {
    v == lo || (lo < v && Stepped(lo + step, step, v))
  }

  predicate Covers(p: Part, v: int)
    requires p.Range? ==> p.step > 0
  {
    p.AnyValue? || (v <= p.hi && Stepped(p.lo, p.step, v))
  }

  /** A field with a part's values added. */
  function Mark(f: Field, p: Part): Field
    requires p.Range? ==> p.step > 0
  {
    if p.AnyValue? then f.(any := true)
    else f.(allowed := seq(|f.allowed|, v requires 0 <= v < |f.allowed| => f.allowed[v] || Covers(p, v)))
  }

  /** The marking loop's v += step passes the largest int. */
  predicate StepOverflows(p: Part) { p.Range? && p.lo + p.step > MAX_INT64 }

  datatype Parsed = Ok | Err | Crash

  lemma {:induction false} SteppedNext(lo: int, step: int, v: int)
    requires step > 0 && Stepped(lo, step, v)
    ensures Stepped(lo, step, v + step)
    ensures forall x :: v < x < v + step ==> !Stepped(lo, step, x)
    decreases v - lo
  {
    if v > lo {
      SteppedNext(lo + step, step, v);
    }
  }

  /** The three calls of the source to strconv.Atoi and the range check, then the marking loop. */
  method ParsePart(part: Bytes, min: int, max: int, out: CronField) returns (r: Parsed)
    requires out.Valid() && 0 <= min <= max < 60
    modifies out, out.bits
    ensures var p := ReadPart(part, min, max);
      && (r == Err <==> p.None?)
      && (r == Crash <==> p.Some? && StepOverflows(p.value))
      && (r == Ok ==> out.View() == Mark(old(out.View()), p.value))
    ensures r == Err ==> out.View() == old(out.View())
  {
    hide IndexByte, ParseInt;
    var step := 1;
    var (base, stepStr) := Cut(part, SLASH);
    if stepStr.Some? {
      var s := ParseInt(stepStr.value);
      if s.None? || s.value <= 0 { return Err; }
      step := s.value;
    }
    var lo, hi := min, max;
    if base == STAR {
      if step == 1 {
        out.any := true;
        return Ok;
      }
    } else {
      var (loStr, hiStr) := Cut(base, MINUS);
      var l := ParseInt(loStr);
      if l.None? { return Err; }
      var h := l;
      if hiStr.Some? {
        h := ParseInt(hiStr.value);
        if h.None? { return Err; }
      }
      lo, hi := l.value, h.value;
    }
    if lo < min || hi > max || lo > hi { return Err; }
    r := MarkRange(lo, hi, step, out);
  }

  method MarkRange(lo: int, hi: int, step: int, out: CronField) returns (r: Parsed)
    requires out.Valid() && 0 <= lo <= hi < 60 && 0 < step <= MAX_INT64
    modifies out.bits
    ensures r == if StepOverflows(Range(lo, hi, step)) then Crash else Ok
    ensures r == Ok ==> out.View() == Mark(old(out.View()), Range(lo, hi, step))
  {
    var v := lo;
    while v <= hi
      invariant v < 0 ==> StepOverflows(Range(lo, hi, step))
      invariant v >= 0 ==> Stepped(lo, step, v) && (v == lo || !StepOverflows(Range(lo, hi, step)))
      invariant v >= 0 ==> forall x :: 0 <= x < 60 ==>
        out.bits[x] == (old(out.bits[x]) || (x < v && x <= hi && Stepped(lo, step, x)))
      decreases if v < 0 then 0 else 1 + hi - v
    {
      if v < 0 { return Crash; }
      out.bits[v] := true;
      SteppedNext(lo, step, v);
      v := Add64(v, step);
    }
    r := Ok;
  }

  // --- A field: a comma-separated list of parts ---

  /** How reading a list of parts ends, and the parts read by then, after those before. */
  function ReadField(parts: seq<Bytes>, min: int, max: int, before: seq<Part>): (Parsed, seq<Part>)
    requires 0 <= min <= max < 60
    decreases |parts|
  {
    if parts == [] then (Ok, before)
    else
      var p := ReadPart(parts[0], min, max);
      if p.None? then (Err, before)
      else if StepOverflows(p.value) then (Crash, before)
      else ReadField(parts[1..], min, max, before + [p.value])
  }

  predicate Sensible(p: Part, min: int, max: int) {
    p.Range? ==> min <= p.lo <= p.hi <= max && 0 < p.step <= MAX_INT64
  }

  ghost predicate AllSensible(ps: seq<Part>, min: int, max: int) {
    forall i :: 0 <= i < |ps| ==> Sensible(ps[i], min, max)
  }

  /** The field that a list of parts describes, independently of the order they are marked in. */
  ghost predicate Describes(ps: seq<Part>, min: int, max: int, f: Field)
    requires AllSensible(ps, min, max)
  {
    && |f.allowed| == 60
    && (f.any <==> AnyValue in ps)
    && forall v :: 0 <= v < 60 ==> (f.allowed[v] <==> exists i :: 0 <= i < |ps| && ps[i].Range? && Covers(ps[i], v))
  }

  lemma MarkDescribes(ps: seq<Part>, p: Part, min: int, max: int, f: Field)
    requires AllSensible(ps, min, max) && Sensible(p, min, max) && Describes(ps, min, max, f)
    ensures AllSensible(ps + [p], min, max) && Describes(ps + [p], min, max, Mark(f, p))
  {
    hide Stepped;
    var qs, g := ps + [p], Mark(f, p);
    forall v | 0 <= v < 60 ensures g.allowed[v] <==> exists i :: 0 <= i < |qs| && qs[i].Range? && Covers(qs[i], v) {
      if f.allowed[v] {
        var i :| 0 <= i < |ps| && ps[i].Range? && Covers(ps[i], v);
        assert qs[i] == ps[i];
      } else if p.Range? && Covers(p, v) {
        assert qs[|ps|] == p;
      }
    }
  }

  method ParseField(raw: Bytes, min: int, max: int, out: CronField) returns (r: Parsed)
    requires out.Valid() && 0 <= min <= max < 60
    requires out.View() == NOTHING
    modifies out, out.bits
    ensures r == ReadField(Split(raw, COMMA), min, max, []).0
    ensures r == Ok ==>
      var ps := ReadField(Split(raw, COMMA), min, max, []).1;
      ps != [] && AllSensible(ps, min, max) && Describes(ps, min, max, out.View())
  {
    hide ReadPart, Covers, Mark, Split;
    var parts := Split(raw, COMMA);
    ghost var ps := [];
    for i := 0 to |parts|
      invariant i > 0 ==> ps != []
      invariant AllSensible(ps, min, max) && Describes(ps, min, max, out.View())
      invariant ReadField(parts, min, max, []) == ReadField(parts[i..], min, max, ps)
    {
      ghost var before := out.View();
      assert parts[i..][1..] == parts[i + 1..];
      r := ParsePart(parts[i], min, max, out);
      if r != Ok { return; }
      ghost var p := ReadPart(parts[i], min, max).value;
      MarkDescribes(ps, p, min, max, before);
      ps := ps + [p];
    }
    r := Ok;
  }

  // --- The five fields ---

  /** A field read without error allows exactly the values its parts cover, all of them in range, and at least one. */
  lemma DescribedField(ps: seq<Part>, min: int, max: int, f: Field)
    requires 0 <= min <= max < 60 && ps != []
    requires AllSensible(ps, min, max) && Describes(ps, min, max, f)
    ensures CronRecurrence.AllowsSome(f, min, max)
    ensures forall v :: min <= v <= max ==> (f.Allows(v) <==> exists i :: 0 <= i < |ps| && Covers(ps[i], v))
  {
    if ps[0] == AnyValue {
      assert f.Allows(min);
    } else {
      assert Covers(ps[0], ps[0].lo);
      assert f.Allows(ps[0].lo);
    }
    forall v | min <= v <= max ensures f.Allows(v) <==> exists i :: 0 <= i < |ps| && Covers(ps[i], v) {
      if f.any {
        var i :| 0 <= i < |ps| && ps[i] == AnyValue;
        assert Covers(ps[i], v);
      }
    }
  }

  /** The number of bytes of the white space in front, in UTF-8; 0 if there is none. */
  function SpaceWidth(s: Bytes): (n: nat)
    ensures n <= |s|
  {
    if s == [] then 0
    else if 9 <= s[0] <= 13 || s[0] == 32 then 1
    else if |s| >= 2 && s[0] == 0xC2 && s[1] in {0x85, 0xA0} then 2
    else if |s| < 3 then 0
    else if s[..3] in {[0xE1, 0x9A, 0x80], [0xE2, 0x81, 0x9F], [0xE3, 0x80, 0x80]} then 3
    else if s[..2] == [0xE2, 0x80] && (0x80 <= s[2] <= 0x8A || s[2] in {0xA8, 0xA9, 0xAF}) then 3
    else 0
  }

  /** The number of bytes up to the next white space. */
  function WordLength(s: Bytes): (n: nat)
    ensures n <= |s|
    ensures s != [] && SpaceWidth(s) == 0 ==> n > 0
  {
    if s == [] || SpaceWidth(s) > 0 then 0 else 1 + WordLength(s[1..])
  }

  /** strings.Fields: what stands between runs of white space. */
  function Words(s: Bytes): seq<Bytes>
    decreases |s|
  {
    if s == [] then []
    else if SpaceWidth(s) > 0 then Words(s[SpaceWidth(s)..])
    else [s[..WordLength(s)]] + Words(s[WordLength(s)..])
  }

  /** What ParseCron guarantees about each field of the schedule it returns. */
  ghost predicate FieldRead(raw: Bytes, min: int, max: int, f: Field)
    requires 0 <= min <= max < 60
  {
    var (end, ps) := ReadField(Split(raw, COMMA), min, max, []);
    && end == Ok && ps != [] && AllSensible(ps, min, max) && Describes(ps, min, max, f)
  }

  ghost predicate SpecRead(fields: seq<Bytes>, s: Spec)
    requires |fields| == 5
  {
    && FieldRead(fields[0], 0, 59, s.minute) && FieldRead(fields[1], 0, 23, s.hour)
    && FieldRead(fields[2], 1, 31, s.dom) && FieldRead(fields[3], 1, 12, s.month)
    && FieldRead(fields[4], 0, 6, s.dow)
  }

  function FieldOutcome(raw: Bytes, min: int, max: int): Parsed
    requires 0 <= min <= max < 60
  {
    ReadField(Split(raw, COMMA), min, max, []).0
  }

  /** The first field that is not read decides. */
  function CronOutcome(fields: seq<Bytes>): Parsed {
    if |fields| != 5 then Err
    else if FieldOutcome(fields[0], 0, 59) != Ok then FieldOutcome(fields[0], 0, 59)
    else if FieldOutcome(fields[1], 0, 23) != Ok then FieldOutcome(fields[1], 0, 23)
    else if FieldOutcome(fields[2], 1, 31) != Ok then FieldOutcome(fields[2], 1, 31)
    else if FieldOutcome(fields[3], 1, 12) != Ok then FieldOutcome(fields[3], 1, 12)
    else FieldOutcome(fields[4], 0, 6)
  }

  method ParseCron(expr: Bytes) returns (r: Parsed, cs: CronSchedule)
    ensures r == CronOutcome(Words(expr))
    ensures r == Ok ==> cs.Valid() && SpecRead(Words(expr), cs.View())
    ensures fresh(cs) && fresh(cs.Repr)
  {
    hide ReadField, Split, Describes, Words;
    var fields := Words(expr);
    cs := new CronSchedule();
    if |fields| != 5 { return Err, cs; }
    assert forall i :: 0 <= i < 5 ==> cs.Fields()[i].View() == NOTHING;
    assert cs.minute == cs.Fields()[0] && cs.hour == cs.Fields()[1] && cs.dom == cs.Fields()[2];
    assert cs.month == cs.Fields()[3] && cs.dow == cs.Fields()[4];
    r := ParseField(fields[0], 0, 59, cs.minute);
    if r != Ok { return; }
    r := ParseField(fields[1], 0, 23, cs.hour);
    if r != Ok { return; }
    r := ParseField(fields[2], 1, 31, cs.dom);
    if r != Ok { return; }
    r := ParseField(fields[3], 1, 12, cs.month);
    if r != Ok { return; }
    r := ParseField(fields[4], 0, 6, cs.dow);
  }

  /**
    For a parsed expression, Next always finds a time unless the day of the month is
    the only restricted day field and no allowed month has an allowed day every year.
   */
  lemma ParsedAlwaysFinds(fields: seq<Bytes>, s: Spec)
    requires |fields| == 5 && SpecRead(fields, s)
    ensures (forall from, r :: IsNext(s, from, r) ==> r < from + HORIZON_NS)
      <==> s.dom.any || !s.dow.any || CronRecurrence.YearlyDate(s)
  {
    hide IsNext, ReadField, Split, Covers, Describes, CronRecurrence.YearlyDate, CronRecurrence.AllowsSome;
    DescribedField(ReadField(Split(fields[0], COMMA), 0, 59, []).1, 0, 59, s.minute);
    DescribedField(ReadField(Split(fields[1], COMMA), 0, 23, []).1, 0, 23, s.hour);
    DescribedField(ReadField(Split(fields[3], COMMA), 1, 12, []).1, 1, 12, s.month);
    DescribedField(ReadField(Split(fields[4], COMMA), 0, 6, []).1, 0, 6, s.dow);
    CronRecurrence.NextAlwaysFinds(s);
  }

  // --- Printing a field and reading it back ---

  datatype Base = Star | Value(a: nat) | Span(a: nat, b: nat)

  /** An item of a field as one writes it: *, a or a-b, with or without a step. */
  datatype Item = Item(base: Base, step: Option<nat>) {
    function Every(): nat { if step.Some? then step.value else 1 }

    function Lo(min: int): int { if base.Star? then min else base.a }

    function Hi(max: int): int {
      match base
      case Star => max
      case Value(a) => a
      case Span(_, b) => b
    }

    /** Every n-th value of its range, from the first on. */
    predicate Means(min: int, max: int, v: int)
      requires Every() > 0
    {
      Lo(min) <= v <= Hi(max) && (v - Lo(min)) % Every() == 0
    }

    predicate Legal(min: int, max: int) { 0 < Every() <= MAX_INT64 && min <= Lo(min) <= Hi(max) <= max }

    /** All values, with nothing left out: the field counts as not restricted. */
    predicate Whole() { base.Star? && Every() == 1 }

    function AsPart(min: int, max: int): Part { if Whole() then AnyValue else Range(Lo(min), Hi(max), Every()) }

    function PrintBase(): Bytes {
      match base
      case Star => STAR
      case Value(a) => FormatNat(a)
      case Span(a, b) => FormatNat(a) + [MINUS] + FormatNat(b)
    }

    function Print(): Bytes {
      if step.Some? then PrintBase() + [SLASH] + FormatNat(step.value) else PrintBase()
    }
  }

  function Join(parts: seq<Bytes>): Bytes
    requires parts != []
  {
    if |parts| == 1 then parts[0] else parts[0] + [COMMA] + Join(parts[1..])
  }

  lemma CutAt(a: Bytes, b: byte, c: Bytes)
    requires b !in a
    ensures Cut(a + [b] + c, b) == (a, Some(c))
  {
    var s := a + [b] + c;
    assert s[|a|] == b;
    assert forall k :: 0 <= k < |a| ==> s[k] == a[k];
    assert IndexByte(s, 0, b) == |a|;
    assert s[..|a|] == a && s[|a| + 1..] == c;
  }

  lemma CutNowhere(a: Bytes, b: byte)
    requires b !in a
    ensures Cut(a, b) == (a, None)
  {
  }

  lemma NatReadBack(n: nat)
    ensures ParseInt(FormatNat(n)) == if n <= MAX_INT64 then Some(n) else None
  {
    FormatNatValue(n);
    assert IsDigit(FormatNat(n)[0]);
  }

  lemma BaseReadBack(it: Item, min: int, max: int)
    requires 0 <= min <= max < 60 && 0 < it.Every() <= MAX_INT64
    ensures ReadBase(it.PrintBase(), it.Every(), min, max) ==
      if it.Legal(min, max) then Some(it.AsPart(min, max)) else None
  {
    hide IndexByte, ParseInt, FormatNat, Cut;
    if !it.base.Star? {
      var lo := FormatNat(it.base.a);
      NatReadBack(it.base.a);
      assert IsDigit(lo[0]);
      if it.base.Span? {
        NatReadBack(it.base.b);
        CutAt(lo, MINUS, FormatNat(it.base.b));
        assert it.PrintBase()[0] == lo[0];
      } else {
        CutNowhere(lo, MINUS);
      }
    }
  }

  /** An item is read for the values it means, or refused if it is not a legal one of the field. */
  lemma ItemReadBack(it: Item, min: int, max: int)
    requires 0 <= min <= max < 60
    ensures ReadPart(it.Print(), min, max) == if it.Legal(min, max) then Some(it.AsPart(min, max)) else None
    ensures it.Legal(min, max) ==>
      forall v :: min <= v <= max ==> (Covers(it.AsPart(min, max), v) <==> it.Means(min, max, v))
    ensures COMMA !in it.Print()
  {
    hide IndexByte, ParseInt, FormatNat, Cut, ReadBase, Stepped;
    var base := it.PrintBase();
    assert SLASH !in base;
    if it.step.Some? {
      CutAt(base, SLASH, FormatNat(it.step.value));
      NatReadBack(it.step.value);
    } else {
      CutNowhere(base, SLASH);
    }
    if 0 < it.Every() <= MAX_INT64 { BaseReadBack(it, min, max); }
    if it.Legal(min, max) { PartMeans(it, min, max); }
  }

  ghost predicate SpellsBase(t: Bytes, b: Base) {
    match b
    case Star => t == STAR
    case Value(a) => ParseInt(t) == Some(a)
    case Span(a, b) => exists x, y :: t == x + [MINUS] + y && ParseInt(x) == Some(a) && ParseInt(y) == Some(b)
  }

  /** The text is such an item, its numbers written in any way that strconv reads. */
  ghost predicate Spells(t: Bytes, it: Item) {
    if it.step.None? then SpellsBase(t, it.base)
    else exists x, y :: t == x + [SLASH] + y && SpellsBase(x, it.base) && ParseInt(y) == Some(it.step.value)
  }

  lemma CutJoins(s: Bytes, b: byte)
    ensures var (head, tail) := Cut(s, b);
      if tail.None? then head == s else s == head + [b] + tail.value
  {
  }

  lemma OnlyBasesRead(t: Bytes, step: nat, min: int, max: int) returns (b: Base)
    requires 0 <= min <= max < 60 && 0 < step <= MAX_INT64 && ReadBase(t, step, min, max).Some?
    ensures SpellsBase(t, b)
    ensures forall it: Item :: it.base == b && it.Every() == step ==>
      it.Legal(min, max) && ReadBase(t, step, min, max) == Some(it.AsPart(min, max))
  {
    hide IndexByte, ParseInt, Cut;
    var (x, y) := Cut(t, MINUS);
    CutJoins(t, MINUS);
    if t == STAR {
      b := Star;
    } else if y.None? {
      b := Value(ParseInt(x).value);
    } else {
      b := Span(ParseInt(x).value, ParseInt(y.value).value);
      assert t == x + [MINUS] + y.value;
    }
  }

  /** And nothing but legal items is read. */
  lemma OnlyItemsRead(t: Bytes, min: int, max: int) returns (it: Item)
    requires 0 <= min <= max < 60 && ReadPart(t, min, max).Some?
    ensures Spells(t, it) && it.Legal(min, max) && ReadPart(t, min, max) == Some(it.AsPart(min, max))
  {
    hide IndexByte, ParseInt, Cut, ReadBase, SpellsBase, Item.Legal, Item.AsPart;
    var (x, y) := Cut(t, SLASH);
    CutJoins(t, SLASH);
    var step := if y.None? then 1 else ParseInt(y.value).value;
    var b := OnlyBasesRead(x, step, min, max);
    it := Item(b, if y.None? then None else Some(step));
    if y.Some? { assert t == x + [SLASH] + y.value; }
  }

  lemma {:induction false} SteppedIs(lo: int, step: int, v: int)
    requires step > 0
    ensures Stepped(lo, step, v) <==> lo <= v && (v - lo) % step == 0
    decreases v - lo
  {
    if lo < v {
      SteppedIs(lo + step, step, v);
      RemainderStep(v - lo, step);
    }
  }

  lemma RemainderStep(n: int, step: int)
    requires step > 0 && n > 0
    ensures n % step == 0 <==> n - step >= 0 && (n - step) % step == 0
  {
    if n < step {
    } else {
      assert n == step * (n / step) + n % step;
      var q := n / step - 1;
      assert n - step == step * q + n % step;
      RemainderUnique(n - step, step, q, n % step);
    }
  }

  lemma RemainderUnique(n: int, step: int, q: int, r: int)
    requires step > 0 && 0 <= r < step && n == step * q + r
    ensures n % step == r
  {
    var d := q - n / step;
    assert step * d == n % step - r;
    assert d > 0 ==> step * d >= step;
    assert d < 0 ==> step * d <= -step;
  }

  lemma PartMeans(it: Item, min: int, max: int)
    requires it.Legal(min, max)
    ensures forall v :: min <= v <= max ==> (Covers(it.AsPart(min, max), v) <==> it.Means(min, max, v))
    ensures !it.Whole() ==> forall v :: Covers(it.AsPart(min, max), v) <==> it.Means(min, max, v)
  {
    hide Stepped;
    forall v ensures Stepped(it.Lo(min), it.Every(), v) <==> it.Lo(min) <= v && (v - it.Lo(min)) % it.Every() == 0 {
      SteppedIs(it.Lo(min), it.Every(), v);
    }
  }

  lemma {:induction false} SplitJoin(parts: seq<Bytes>)
    requires parts != [] && forall i :: 0 <= i < |parts| ==> COMMA !in parts[i]
    ensures Split(Join(parts), COMMA) == parts
    decreases |parts|
  {
    hide IndexByte, Cut;
    if |parts| == 1 {
      CutNowhere(parts[0], COMMA);
    } else {
      CutAt(parts[0], COMMA, Join(parts[1..]));
      SplitJoin(parts[1..]);
      assert parts == [parts[0]] + parts[1..];
    }
  }

  function PrintAll(its: seq<Item>): seq<Bytes> { seq(|its|, i requires 0 <= i < |its| => its[i].Print()) }

  function PartsOf(its: seq<Item>, min: int, max: int): seq<Part> {
    seq(|its|, i requires 0 <= i < |its| => its[i].AsPart(min, max))
  }

  /** A field's items, which do not run past the largest int. */
  ghost predicate Fit(its: seq<Item>, min: int, max: int) {
    && 0 <= min <= max < 60 && its != []
    && forall i :: 0 <= i < |its| ==> its[i].Legal(min, max) && its[i].Lo(min) + its[i].Every() <= MAX_INT64
  }

  lemma {:induction false} PartsReadBack(its: seq<Item>, min: int, max: int, before: seq<Part>)
    requires its == [] || Fit(its, min, max)
    requires 0 <= min <= max < 60
    ensures ReadField(PrintAll(its), min, max, before) == (Ok, before + PartsOf(its, min, max))
    decreases |its|
  {
    hide ReadPart, Item.Print, Covers;
    if its == [] {
      assert before + PartsOf(its, min, max) == before;
    } else {
      ItemReadBack(its[0], min, max);
      var p := its[0].AsPart(min, max);
      assert PrintAll(its)[1..] == PrintAll(its[1..]);
      PartsReadBack(its[1..], min, max, before + [p]);
      assert before + PartsOf(its, min, max) == (before + [p]) + PartsOf(its[1..], min, max);
    }
  }

  ghost predicate Listed(its: seq<Item>, min: int, max: int, v: int)
    requires Fit(its, min, max)
  {
    exists i :: 0 <= i < |its| && !its[i].Whole() && its[i].Means(min, max, v)
  }

  /** The field with the values that the items mean. */
  ghost predicate Shows(its: seq<Item>, min: int, max: int, f: Field)
    requires Fit(its, min, max)
  {
    && |f.allowed| == 60
    && (f.any <==> exists i :: 0 <= i < |its| && its[i].Whole())
    && forall v :: 0 <= v < 60 ==> (f.allowed[v] <==> Listed(its, min, max, v))
  }

  /** A field allows exactly the values its items mean. */
  lemma ShownAllows(its: seq<Item>, min: int, max: int, f: Field, v: int)
    requires Fit(its, min, max) && Shows(its, min, max, f) && min <= v <= max
    ensures f.Allows(v) <==> exists i :: 0 <= i < |its| && its[i].Means(min, max, v)
  {
    if f.any {
      var i :| 0 <= i < |its| && its[i].Whole();
      assert its[i].Means(min, max, v);
    }
  }

  /** Any list of items, printed with commas between them, is read back for the values they mean. */
  lemma FieldReadBack(its: seq<Item>, min: int, max: int, f: Field)
    requires Fit(its, min, max)
    ensures FieldOutcome(Join(PrintAll(its)), min, max) == Ok
    ensures FieldRead(Join(PrintAll(its)), min, max, f) <==> Shows(its, min, max, f)
  {
    hide ReadPart, Item.Print, Split, Join, ReadField, Covers, Item.Means;
    forall i | 0 <= i < |its| ensures COMMA !in PrintAll(its)[i] {
      ItemReadBack(its[i], min, max);
    }
    SplitJoin(PrintAll(its));
    PartsReadBack(its, min, max, []);
    var ps := PartsOf(its, min, max);
    assert [] + ps == ps;
    DescribesShows(its, min, max, f);
  }

  lemma DescribesShows(its: seq<Item>, min: int, max: int, f: Field)
    requires Fit(its, min, max)
    ensures AllSensible(PartsOf(its, min, max), min, max)
    ensures Describes(PartsOf(its, min, max), min, max, f) <==> Shows(its, min, max, f)
  {
    hide Covers, Item.Means;
    var ps := PartsOf(its, min, max);
    forall i | 0 <= i < |its|
      ensures !its[i].Whole() ==> forall v :: Covers(ps[i], v) <==> its[i].Means(min, max, v)
    {
      PartMeans(its[i], min, max);
    }
    assert AnyValue in ps <==> exists i :: 0 <= i < |its| && its[i].Whole() by {
      if i :| 0 <= i < |its| && its[i].Whole() { assert ps[i] == AnyValue; }
    }
    forall v
      ensures (exists i :: 0 <= i < |ps| && ps[i].Range? && Covers(ps[i], v)) <==> Listed(its, min, max, v)
    {
      if i :| 0 <= i < |its| && !its[i].Whole() && its[i].Means(min, max, v) {
        assert ps[i].Range? && Covers(ps[i], v);
      }
    }
  }

  // --- Spacing fields out and reading the expression back ---

  predicate Blank(s: Bytes) {
    s == [] || (SpaceWidth(s) > 0 && Blank(s[SpaceWidth(s)..]))
  }

  /** Not empty, and printable ASCII. */
  predicate Plain(s: Bytes) {
    s != [] && forall i :: 0 <= i < |s| ==> 32 < s[i] < 127
  }

  /** The words with a gap before, between and after them. */
  function Spread(words: seq<Bytes>, gaps: seq<Bytes>): Bytes
    requires |gaps| == |words| + 1
  {
    if words == [] then gaps[0] else gaps[0] + (words[0] + Spread(words[1..], gaps[1..]))
  }

  ghost predicate Spaced(words: seq<Bytes>, gaps: seq<Bytes>) {
    && |gaps| == |words| + 1
    && (forall i :: 0 <= i < |words| ==> Plain(words[i]))
    && (forall i :: 0 <= i < |gaps| ==> Blank(gaps[i]))
    && (forall i :: 0 < i < |words| ==> gaps[i] != [])
  }

  lemma SpaceInFront(g: Bytes, rest: Bytes)
    requires SpaceWidth(g) > 0
    ensures SpaceWidth(g + rest) == SpaceWidth(g)
  {
    assert |g| >= 2 ==> (g + rest)[..2] == g[..2];
    assert |g| >= 3 ==> (g + rest)[..3] == g[..3];
  }

  lemma {:induction false} BlankSkipped(g: Bytes, rest: Bytes)
    requires Blank(g)
    ensures Words(g + rest) == Words(rest)
    decreases |g|
  {
    if g == [] {
      assert g + rest == rest;
    } else {
      var n := SpaceWidth(g);
      SpaceInFront(g, rest);
      assert (g + rest)[n..] == g[n..] + rest;
      BlankSkipped(g[n..], rest);
    }
  }

  lemma PlainInFront(w: Bytes, rest: Bytes)
    requires Plain(w)
    ensures SpaceWidth(w + rest) == 0
  {
    var s := w + rest;
    assert s[0] == w[0];
    assert |s| >= 2 ==> s[..2][0] == w[0];
    assert |s| >= 3 ==> s[..3][0] == w[0];
  }

  lemma {:induction false} WordEnds(w: Bytes, rest: Bytes)
    requires w == [] || Plain(w)
    requires rest == [] || SpaceWidth(rest) > 0
    ensures WordLength(w + rest) == |w|
    decreases |w|
  {
    if w == [] {
      assert w + rest == rest;
    } else {
      hide SpaceWidth;
      PlainInFront(w, rest);
      assert (w + rest)[1..] == w[1..] + rest;
      WordEnds(w[1..], rest);
    }
  }

  /** However the words are spaced out, they are what is found. */
  lemma {:induction false} WordsOfSpread(words: seq<Bytes>, gaps: seq<Bytes>)
    requires Spaced(words, gaps)
    ensures Words(Spread(words, gaps)) == words
    decreases |words|
  {
    if words == [] {
      BlankSkipped(gaps[0], []);
      assert gaps[0] + [] == gaps[0];
    } else {
      var w, rest := words[0], Spread(words[1..], gaps[1..]);
      BlankSkipped(gaps[0], w + rest);
      if gaps[1] != [] && |words| > 1 {
        SpaceInFront(gaps[1], words[1] + Spread(words[2..], gaps[2..]));
        assert words[1..][1..] == words[2..] && gaps[1..][1..] == gaps[2..];
      }
      WordEnds(w, rest);
      assert (w + rest)[..|w|] == w && (w + rest)[|w|..] == rest;
      WordsOfSpread(words[1..], gaps[1..]);
    }
  }

  lemma {:induction false} JoinPlain(parts: seq<Bytes>)
    requires parts != [] && forall i :: 0 <= i < |parts| ==> Plain(parts[i])
    ensures Plain(Join(parts))
    decreases |parts|
  {
    if |parts| > 1 {
      JoinPlain(parts[1..]);
    }
  }

  lemma ItemPlain(it: Item)
    ensures Plain(it.Print())
  {
    hide FormatNat;
  }

  lemma FieldPlain(its: seq<Item>)
    requires its != []
    ensures Plain(Join(PrintAll(its)))
  {
    hide Item.Print, Plain;
    forall i | 0 <= i < |its| ensures Plain(PrintAll(its)[i]) {
      ItemPlain(its[i]);
    }
    JoinPlain(PrintAll(its));
  }

  /** The five lists of items that an expression is written as. */
  datatype Expression = Expression(minute: seq<Item>, hour: seq<Item>, dom: seq<Item>, month: seq<Item>, dow: seq<Item>)
  {
    ghost predicate Fits() {
      Fit(minute, 0, 59) && Fit(hour, 0, 23) && Fit(dom, 1, 31) && Fit(month, 1, 12) && Fit(dow, 0, 6)
    }

    function Printed(): (r: seq<Bytes>)
      requires minute != [] && hour != [] && dom != [] && month != [] && dow != []
      ensures |r| == 5
    {
      [Join(PrintAll(minute)), Join(PrintAll(hour)), Join(PrintAll(dom)), Join(PrintAll(month)), Join(PrintAll(dow))]
    }

    /** The schedule with the values that the items mean. */
    ghost predicate Of(s: Spec)
      requires Fits()
    {
      && Shows(minute, 0, 59, s.minute) && Shows(hour, 0, 23, s.hour) && Shows(dom, 1, 31, s.dom)
      && Shows(month, 1, 12, s.month) && Shows(dow, 0, 6, s.dow)
    }
  }

  /** An expression of any items, spaced out in any way, is read as the one schedule with the values they mean. */
  lemma ExpressionReadBack(x: Expression, gaps: seq<Bytes>, s: Spec)
    requires x.Fits()
    requires |gaps| == 6 && forall i :: 0 <= i < 6 ==> Blank(gaps[i]) && (0 < i < 5 ==> gaps[i] != [])
    ensures var fields := Words(Spread(x.Printed(), gaps));
            CronOutcome(fields) == Ok && (SpecRead(fields, s) <==> x.Of(s))
  {
    hide Join, PrintAll, Plain, Blank, Spread, Words, FieldOutcome, FieldRead, Shows;
    FieldPlain(x.minute);
    FieldPlain(x.hour);
    FieldPlain(x.dom);
    FieldPlain(x.month);
    FieldPlain(x.dow);
    WordsOfSpread(x.Printed(), gaps);
    FieldReadBack(x.minute, 0, 59, s.minute);
    FieldReadBack(x.hour, 0, 23, s.hour);
    FieldReadBack(x.dom, 1, 31, s.dom);
    FieldReadBack(x.month, 1, 12, s.month);
    FieldReadBack(x.dow, 0, 6, s.dow);
  }
}
