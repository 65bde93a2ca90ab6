/**
  Cron schedules and their next fire time (internal/scheduler/cron.go), in UTC.

  An instant is a number of nanoseconds since the start of year 1. Every value
  the search variable takes is a whole minute, so it is kept as a minute number.
 */
module Cron {
  import opened Calendar

  const MINUTE_NS: int := 60_000_000_000
  const HORIZON_NS: int := 4 * 365 * 24 * 3600 * 1_000_000_000

  /** The value of a cron field: "any", or the set of allowed numbers. */
  datatype Field = Field(any: bool, allowed: seq<bool>) {
    predicate Allows(v: int) {
      any || v < 0 || (v < |allowed| && allowed[v])
    }
  }

  const NOTHING := Field(false, seq(60, _ => false))

  class CronField {
    var any: bool
    const bits: array<bool>

    ghost predicate Valid() { bits.Length == 60 }

    constructor ()
      ensures Valid() && fresh(bits) && View() == NOTHING
    {
      any := false;
      bits := new bool[60](_ => false);
    }

    function View(): (f: Field)
      reads this, bits
    {
      Field(any, bits[..])
    }

    method Matches(v: int) returns (ok: bool)
      ensures ok == View().Allows(v)
    {
      if any || v < 0 { return true; }
      if v >= bits.Length { return false; }
      ok := bits[v];
    }

    /** The least allowed value from start on, or else, wrapped, the least from min on. */
    method Next(start: int, min: int, max: int) returns (v: int, wrapped: bool)
      requires Valid() && 0 <= min <= max < 60 && 0 <= start
      ensures !wrapped ==> start <= v <= max && View().Allows(v)
      ensures !wrapped ==> forall x :: start <= x < v ==> !View().Allows(x)
      ensures wrapped ==> min <= v <= max
      ensures wrapped ==> forall x :: start <= x <= max || min <= x < v ==> !View().Allows(x)
      ensures wrapped && !View().Allows(v) ==> v == min && forall x :: min <= x <= max ==> !View().Allows(x)
    {
      if any {
        if start > max { return min, true; }
        return start, false;
      }
      v := start;
      while v <= max
        invariant start <= v && (v <= max + 1 || v == start)
        invariant forall x :: start <= x < v ==> !View().Allows(x)
      {
        if bits[v] { return v, false; }
        v := v + 1;
      }
      v := min;
      while v <= max
        invariant min <= v <= max + 1
        invariant forall x :: min <= x < v ==> !View().Allows(x)
      {
        if bits[v] { return v, true; }
        v := v + 1;
      }
      return min, true;
    }
  }

  /** A five-field expression. */
  datatype Spec = Spec(minute: Field, hour: Field, dom: Field, month: Field, dow: Field)

  /**
    The days an expression allows. When both day fields are restricted either may
    match, otherwise both must: IEEE Std 1003.1, crontab utility, INPUT FILES.
   */
  predicate DayAllowed(s: Spec, day: int) {
    var domOK, dowOK := s.dom.Allows(DayOfMonth(day)), s.dow.Allows(Weekday(day));
    if !s.dom.any && !s.dow.any then domOK || dowOK else domOK && dowOK
  }

  predicate DateAllowed(s: Spec, day: int) {
    s.month.Allows(Month(day)) && DayAllowed(s, day)
  }

  /** The expression matches minute k. */
  predicate Fires(s: Spec, k: int) {
    DateAllowed(s, Day(k)) && s.hour.Allows(Hour(k)) && s.minute.Allows(Minute(k))
  }

  /** On the calendar: which minutes of which dates an expression matches. */
  lemma FiresOnDate(s: Spec, y: int, m: int, d: int, hour: int, minute: int)
    requires 1 <= m <= 12 && 1 <= d <= DaysInMonth(y, m) && 0 <= hour < 24 && 0 <= minute < 60
    ensures Fires(s, MinuteNumber(DayNumber(y, m, d), hour, minute)) <==>
      && s.month.Allows(m) && s.hour.Allows(hour) && s.minute.Allows(minute)
      && if s.dom.any || s.dow.any then s.dom.Allows(d) && s.dow.Allows(Zeller(y, m, d))
         else s.dom.Allows(d) || s.dow.Allows(Zeller(y, m, d))
  {
    hide DayNumber, MinuteNumber, Weekday, Zeller, Month, DayOfMonth, Day, Hour, Minute, Field.Allows;
    NumberRoundTrip(y, m, d);
    ClockRoundTrip(DayNumber(y, m, d), hour, minute);
    WeekdayIsZeller(y, m, d);
  }

  /** r is what Next must return: the least matching minute after `from`, or the limit when there is none before it. */
  ghost predicate IsNext(s: Spec, from: int, r: int) {
    && from < r <= from + HORIZON_NS
    && (r < from + HORIZON_NS ==> r % MINUTE_NS == 0 && Fires(s, r / MINUTE_NS))
    && (forall k :: from < k * MINUTE_NS < r ==> !Fires(s, k))
  }

  lemma NextUnique(s: Spec, from: int, a: int, b: int)
    requires IsNext(s, from, a) && IsNext(s, from, b)
    ensures a == b
  {
    hide Fires;
    var atA, atB := Fires(s, a / MINUTE_NS), Fires(s, b / MINUTE_NS);
  }

  ghost predicate SilentFrom(s: Spec, t: int, until: int) {
    forall k :: t <= k < until ==> !Fires(s, k)
  }

  // --- Every jump of the search skips only minutes that do not match ---

  lemma MonthSkip(s: Spec, t: int, target: int)
    requires var i := MonthIndex(Day(t));
      i < target && forall j :: i <= j < target ==> !s.month.Allows(MonthOfIndex(j))
    ensures t < MinuteNumber(MonthStart(target), 0, 0)
    ensures SilentFrom(s, t, MinuteNumber(MonthStart(target), 0, 0))
  {
    hide *;
    var until := MinuteNumber(MonthStart(target), 0, 0);
    MonthsOrdered(MonthIndex(Day(t)), target);
    DaySpan(t, t, MonthStart(target));
    forall k | t <= k < until ensures !Fires(s, k) {
      DaySpan(t, k, MonthStart(target));
      MonthIndexMonotone(Day(t), Day(k), target);
      FiresInMonth(s, k);
    }
    SilentUntil(s, t, until);
  }

  lemma DaySpan(t: int, k: int, day: int)
    ensures k < MinuteNumber(day, 0, 0) <==> Day(k) < day
    ensures t <= k ==> Day(t) <= Day(k)
  {
  }

  lemma FiresInMonth(s: Spec, k: int)
    ensures Fires(s, k) ==> s.month.Allows(MonthOfIndex(MonthIndex(Day(k))))
  {
    hide DayAllowed, MonthIndex;
  }

  lemma SilentUntil(s: Spec, t: int, until: int)
    requires forall k :: t <= k < until ==> !Fires(s, k)
    ensures SilentFrom(s, t, until)
  {
  }

  lemma DaySkip(s: Spec, t: int)
    requires !DateAllowed(s, Day(t)) || forall h :: Hour(t) <= h < 24 ==> !s.hour.Allows(h)
    ensures t < MinuteNumber(Day(t) + 1, 0, 0)
    ensures SilentFrom(s, t, MinuteNumber(Day(t) + 1, 0, 0))
  {
    hide DateAllowed;
    MinuteRoundTrip(t);
    forall k | t <= k < MinuteNumber(Day(t) + 1, 0, 0) ensures !Fires(s, k) {
      MinuteRoundTrip(k);
      ClockOrder(t, k);
    }
  }

  lemma HourSkip(s: Spec, t: int, h: int)
    requires Hour(t) < h <= 24 && forall x :: Hour(t) <= x < h ==> !s.hour.Allows(x)
    ensures t < MinuteNumber(Day(t), h, 0)
    ensures SilentFrom(s, t, MinuteNumber(Day(t), h, 0))
  {
    hide DateAllowed;
    MinuteRoundTrip(t);
    forall k | t <= k < MinuteNumber(Day(t), h, 0) ensures !Fires(s, k) {
      MinuteRoundTrip(k);
      ClockOrder(t, k);
    }
  }

  lemma MinuteSkip(s: Spec, t: int, m: int)
    requires Minute(t) < m <= 60 && forall x :: Minute(t) <= x < m ==> !s.minute.Allows(x)
    ensures t < MinuteNumber(Day(t), Hour(t), m)
    ensures SilentFrom(s, t, MinuteNumber(Day(t), Hour(t), m))
  {
    hide DateAllowed;
    MinuteRoundTrip(t);
    forall k | t <= k < MinuteNumber(Day(t), Hour(t), m) ensures !Fires(s, k) {
      MinuteRoundTrip(k);
      ClockOrder(t, k);
    }
  }

  /** Where a month jump lands: month m of this year or, wrapped, of the next. */
  function MonthTarget(t: int, m: int, wrap: bool): int
    requires 1 <= m <= 12
  {
    MinuteNumber(DayNumber(if wrap then YearOf(Day(t)) + 1 else YearOf(Day(t)), m, 1), 0, 0)
  }

  lemma MonthJump(s: Spec, t: int, m: int, wrap: bool)
    requires 1 <= m <= 12
    requires !wrap ==> Month(Day(t)) < m && forall x :: Month(Day(t)) <= x < m ==> !s.month.Allows(x)
    requires wrap ==> forall x :: Month(Day(t)) <= x <= 12 || 1 <= x < m ==> !s.month.Allows(x)
    ensures t < MonthTarget(t, m, wrap) && SilentFrom(s, t, MonthTarget(t, m, wrap))
  {
    hide Fires, SilentFrom, Field.Allows, DaysBeforeYear, DaysBeforeMonth, MonthIndex, YearOf;
    var i := MonthIndex(Day(t));
    var y := YearOf(Day(t));
    assert i == 12 * y + Month(Day(t)) - 1;
    var j := 12 * (if wrap then y + 1 else y) + m - 1;
    assert YearOfIndex(j) == (if wrap then y + 1 else y) && MonthOfIndex(j) == m;
    forall x | i <= x < j ensures !s.month.Allows(MonthOfIndex(x)) {
      assert MonthOfIndex(x) == x - 12 * y + 1 || MonthOfIndex(x) == x - 12 * (y + 1) + 1;
    }
    MonthSkip(s, t, j);
  }

  // --- Facts the search is put together from ---

  lemma SilentEmpty(s: Spec, t: int)
    ensures SilentFrom(s, t, t)
  {
  }

  lemma SilentJoin(s: Spec, a: int, b: int, c: int)
    requires SilentFrom(s, a, b) && SilentFrom(s, b, c)
    ensures SilentFrom(s, a, c)
  {
  }

  lemma WholeMinute(from: int, t: int)
    ensures t * MINUTE_NS / MINUTE_NS == t && t * MINUTE_NS % MINUTE_NS == 0
    ensures from / MINUTE_NS < t <==> from < t * MINUTE_NS
  {
  }

  lemma FirstIsNext(s: Spec, from: int, t: int)
    requires from / MINUTE_NS < t && t * MINUTE_NS < from + HORIZON_NS
    requires SilentFrom(s, from / MINUTE_NS + 1, t) && Fires(s, t)
    ensures IsNext(s, from, t * MINUTE_NS)
  {
    hide Fires;
    WholeMinute(from, t);
    forall k | from < k * MINUTE_NS < t * MINUTE_NS ensures !Fires(s, k) {
      WholeMinute(from, k);
    }
  }

  lemma FoundIsNext(s: Spec, from: int, t: int)
    requires from / MINUTE_NS < t && t * MINUTE_NS < from + HORIZON_NS
    requires SilentFrom(s, from / MINUTE_NS + 1, t)
    requires DateAllowed(s, Day(t)) && s.hour.Allows(Hour(t)) && s.minute.Allows(Minute(t))
    ensures IsNext(s, from, t * MINUTE_NS)
  {
    hide DateAllowed;
    assert Fires(s, t);
    FirstIsNext(s, from, t);
  }

  lemma LimitIsNext(s: Spec, from: int, t: int)
    requires t * MINUTE_NS >= from + HORIZON_NS
    requires SilentFrom(s, from / MINUTE_NS + 1, t)
    ensures IsNext(s, from, from + HORIZON_NS)
  {
    hide Fires;
  }

  class CronSchedule {
    const minute: CronField
    const hour: CronField
    const dom: CronField
    const month: CronField
    const dow: CronField

    ghost const Repr: set<object> :=
      {minute, minute.bits, hour, hour.bits, dom, dom.bits, month, month.bits, dow, dow.bits}

    ghost predicate Valid() {
      minute.Valid() && hour.Valid() && dom.Valid() && month.Valid() && dow.Valid()
    }

    function View(): Spec
      reads Repr
    {
      Spec(minute.View(), hour.View(), dom.View(), month.View(), dow.View())
    }

    /** The five fields of the schedule, each its own object. */
    ghost function Fields(): seq<CronField> { [minute, hour, dom, month, dow] }

    ghost predicate Separate() {
      forall i, j :: 0 <= i < j < 5 ==> Fields()[i] != Fields()[j] && Fields()[i].bits != Fields()[j].bits
    }

    constructor ()
      ensures Valid() && fresh(Repr) && Separate()
      ensures View() == Spec(NOTHING, NOTHING, NOTHING, NOTHING, NOTHING)
    {
      minute := new CronField();
      hour := new CronField();
      dom := new CronField();
      month := new CronField();
      dow := new CronField();
    }

    /** The day check: a switch over which of the two day fields are restricted. */
    method DayOK(day: int) returns (ok: bool)
      ensures ok == DayAllowed(View(), day)
    {
      var domOK := dom.Matches(DayOfMonth(day));
      var dowOK := dow.Matches(Weekday(day));
      var domRestricted, dowRestricted := !dom.any, !dow.any;
      if domRestricted && dowRestricted {
        ok := domOK || dowOK;
      } else if domRestricted {
        ok := domOK;
      } else if dowRestricted {
        ok := dowOK;
      } else {
        ok := true;
      }
    }

    /** The start of the first later month that is allowed. */
    method NextMonth(t: int) returns (target: int)
      requires Valid() && !View().month.Allows(Month(Day(t)))
      ensures t < target && SilentFrom(View(), t, target)
    {
      hide SilentFrom, Field.Allows, MonthIndex, YearOf, MonthTarget;
      var m, wrap := month.Next(Month(Day(t)), 1, 12);
      MonthJump(View(), t, m, wrap);
      target := MonthTarget(t, m, wrap);
    }

    /** The first minute of the next allowed hour of the day, or of the next day. */
    method NextHour(t: int) returns (target: int)
      requires Valid() && !View().hour.Allows(Hour(t))
      ensures t < target && SilentFrom(View(), t, target)
    {
      MinuteRoundTrip(t);
      var h, wrap := hour.Next(Hour(t), 0, 23);
      if wrap {
        DaySkip(View(), t);
        target := MinuteNumber(Day(t) + 1, 0, 0);
      } else {
        HourSkip(View(), t, h);
        target := MinuteNumber(Day(t), h, 0);
      }
    }

    method NextMinute(t: int) returns (target: int)
      requires Valid() && !View().minute.Allows(Minute(t))
      ensures t < target && SilentFrom(View(), t, target)
    {
      MinuteRoundTrip(t);
      var m, wrap := minute.Next(Minute(t), 0, 59);
      if wrap {
        MinuteSkip(View(), t, 60);
        target := MinuteNumber(Day(t), Hour(t) + 1, 0);
      } else {
        MinuteSkip(View(), t, m);
        target := MinuteNumber(Day(t), Hour(t), m);
      }
    }

    /** The search of the source: each round either returns or jumps past minutes that cannot match. */
    method Next(from: int) returns (r: int)
      requires Valid()
      ensures IsNext(View(), from, r)
    {
      hide IsNext, SilentFrom, DayAllowed, Field.Allows, Month, Day, Hour, Minute;
      var t := from / MINUTE_NS + 1;
      var limit := from + HORIZON_NS;
      SilentEmpty(View(), t);
      while t * MINUTE_NS < limit
        invariant from / MINUTE_NS < t
        invariant SilentFrom(View(), from / MINUTE_NS + 1, t)
        decreases limit - t * MINUTE_NS
      {
        ghost var before := t;
        var monthOK := month.Matches(Month(Day(t)));
        if !monthOK {
          t := NextMonth(t);
          SilentJoin(View(), from / MINUTE_NS + 1, before, t);
          continue;
        }
        var dayOK := DayOK(Day(t));
        if !dayOK {
          DaySkip(View(), t);
          t := MinuteNumber(Day(t) + 1, 0, 0);
          SilentJoin(View(), from / MINUTE_NS + 1, before, t);
          continue;
        }
        var hourOK := hour.Matches(Hour(t));
        if !hourOK {
          t := NextHour(t);
          SilentJoin(View(), from / MINUTE_NS + 1, before, t);
          continue;
        }
        var minuteOK := minute.Matches(Minute(t));
        if !minuteOK {
          t := NextMinute(t);
          SilentJoin(View(), from / MINUTE_NS + 1, before, t);
          continue;
        }
        FoundIsNext(View(), from, t);
        return t * MINUTE_NS;
      }
      LimitIsNext(View(), from, t);
      return limit;
    }
  }
}
