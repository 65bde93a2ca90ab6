/**
  When Next always finds a fire time, and what its iterates list
  (internal/scheduler/cron.go).
 */
module CronRecurrence {
  import opened Calendar
  import opened Cron

  ghost predicate AllowsSome(f: Field, min: int, max: int) {
    exists v :: min <= v <= max && f.Allows(v)
  }

  /** Year 1 is not a leap year. */
  const COMMON_YEAR: int := 1

  /** Some allowed month has an allowed day of the month in every year. */
  ghost predicate YearlyDate(s: Spec) {
    exists m, d :: 1 <= m <= 12 && s.month.Allows(m) && 1 <= d <= DaysInMonth(COMMON_YEAR, m) && s.dom.Allows(d)
  }

  /** What a caller can read off an expression: it fires every year. */
  ghost predicate Recurs(s: Spec) {
    && AllowsSome(s.month, 1, 12) && AllowsSome(s.hour, 0, 23) && AllowsSome(s.minute, 0, 59)
    && ((s.dom.any && s.dow.any)
        || (!s.dow.any && AllowsSome(s.dow, 0, 6))
        || (!s.dom.any && YearlyDate(s)))
  }

  // --- An expression that recurs fires in every calendar year ---

  lemma DateIn(s: Spec, y: int, m: int, d: int)
    requires 1 <= m <= 12 && 1 <= d <= DaysInMonth(y, m) && s.month.Allows(m)
    requires DayAllowed(s, DayNumber(y, m, d))
    ensures DateAllowed(s, DayNumber(y, m, d)) && YearOf(DayNumber(y, m, d)) == y
  {
    hide DayAllowed, Field.Allows;
    NumberRoundTrip(y, m, d);
  }

  lemma WeekdayIn(y: int, m: int, w: int) returns (d: int)
    requires 1 <= m <= 12 && 0 <= w <= 6
    ensures 1 <= d <= 7 && Weekday(DayNumber(y, m, d)) == w
  {
    hide DaysBeforeYear, DaysBeforeMonth;
    var first := Weekday(DayNumber(y, m, 1));
    d := if first <= w then 1 + w - first else 8 + w - first;
    var a := DayNumber(y, m, 1) + 1;
    assert DayNumber(y, m, d) + 1 == a + (d - 1);
  }

  lemma MonthDayAllowed(s: Spec, day: int)
    requires !s.dom.any && s.dom.Allows(DayOfMonth(day))
    ensures DayAllowed(s, day)
  {
  }

  lemma WeekdayAllowed(s: Spec, day: int)
    requires !s.dow.any && s.dow.Allows(Weekday(day))
    ensures DayAllowed(s, day)
  {
  }

  lemma YearlyDay(s: Spec, y: int) returns (day: int)
    requires Recurs(s)
    ensures DateAllowed(s, day) && YearOf(day) == y
  {
    hide DayNumber, YearOf, Month, Weekday, DayOfMonth, Field.Allows, DateAllowed;
    var m, d;
    if s.dom.any && s.dow.any {
      m :| 1 <= m <= 12 && s.month.Allows(m);
      d := 1;
      EveryDayAllowed(s, DayNumber(y, m, d));
    } else if !s.dow.any && AllowsSome(s.dow, 0, 6) {
      m :| 1 <= m <= 12 && s.month.Allows(m);
      var w :| 0 <= w <= 6 && s.dow.Allows(w);
      d := WeekdayIn(y, m, w);
      WeekdayAllowed(s, DayNumber(y, m, d));
    } else {
      m, d :| 1 <= m <= 12 && s.month.Allows(m) && 1 <= d <= DaysInMonth(COMMON_YEAR, m) && s.dom.Allows(d);
      NumberRoundTrip(y, m, d);
      MonthDayAllowed(s, DayNumber(y, m, d));
    }
    DateIn(s, y, m, d);
    day := DayNumber(y, m, d);
  }

  lemma EveryDayAllowed(s: Spec, day: int)
    requires s.dom.any && s.dow.any
    ensures DayAllowed(s, day)
  {
  }

  /** Within two years of any instant, and so within the horizon, such an expression fires. */
  lemma FiresWithinHorizon(s: Spec, from: int) returns (k: int)
    requires Recurs(s)
    ensures from < k * MINUTE_NS < from + HORIZON_NS && Fires(s, k)
  {
    hide DateAllowed, Field.Allows, YearOf, DaysBeforeMonth, Day, Hour, Minute;
    var now := Day(from / MINUTE_NS);
    var y := YearOf(now);
    var day := YearlyDay(s, y + 1);
    var h :| 0 <= h <= 23 && s.hour.Allows(h);
    var m :| 0 <= m <= 59 && s.minute.Allows(m);
    k := MinuteNumber(day, h, m);
    ClockRoundTrip(day, h, m);
    YearLength(y);
    YearLength(y + 1);
    assert now < day <= now + 731;
    MinuteRoundTrip(from / MINUTE_NS);
    WholeMinute(from, k);
    assert from / MINUTE_NS < k < from / MINUTE_NS + 733 * 1440;
  }

  // --- An expression that does not recur misses a window ---

  /** The last minute of 29 February 2020. */
  const LEAP_EVENING: int := MinuteNumber(DayNumber(2020, 2, 29), 23, 59)

  lemma LeapDays()
    ensures DayNumber(2024, 2, 29) == DayNumber(2020, 2, 29) + 1461
    ensures DaysBeforeYear(2020) < DayNumber(2020, 2, 29)
    ensures DayNumber(2020, 2, 29) + 1460 < DaysBeforeYear(2025)
  {
  }

  lemma YearRange(day: int)
    requires DaysBeforeYear(2020) < day < DaysBeforeYear(2025)
    ensures 2020 <= YearOf(day) <= 2024
  {
    hide *;
    var y := YearOf(day);
    if y < 2020 { YearsOrdered(y, 2020); }
    if 2024 < y { YearsOrdered(2024, y); }
  }

  /** In the 1460 days after a leap day there is no other, so a date found there is a date of common years too. */
  lemma NoLeapDayAfter(day: int)
    requires DayNumber(2020, 2, 29) < day <= DayNumber(2020, 2, 29) + 1460
    ensures DayOfMonth(day) <= DaysInMonth(COMMON_YEAR, Month(day))
  {
    hide *;
    LeapDays();
    YearRange(day);
    DateRoundTrip(day);
    CommonDate(YearOf(day), Month(day), DayOfMonth(day));
  }

  lemma CommonDate(y: int, m: int, d: int)
    requires 2020 <= y <= 2024 && 1 <= m <= 12 && 1 <= d <= DaysInMonth(y, m)
    ensures d <= DaysInMonth(COMMON_YEAR, m) || (m == 2 && d == 29 && (y == 2020 || y == 2024))
  {
    assert Leap(y) ==> y == 2020 || y == 2024;
  }

  lemma WeekdayRange(day: int)
    ensures 0 <= Weekday(day) <= 6
  {
  }

  /** A fire on a date that every year has makes the expression recur. */
  lemma FireOnYearlyDate(s: Spec, k: int)
    requires Fires(s, k) && DayOfMonth(Day(k)) <= DaysInMonth(COMMON_YEAR, Month(Day(k)))
    ensures Recurs(s)
  {
    hide MonthIndex, DayOfMonth, Weekday, YearOf, Field.Allows, Day, Hour, Minute;
    MinuteRoundTrip(k);
    DateRoundTrip(Day(k));
    WeekdayRange(Day(k));
    if s.dom.any && s.dow.any {
    } else if !s.dow.any && s.dow.Allows(Weekday(Day(k))) {
      assert AllowsSome(s.dow, 0, 6);
    } else {
      assert YearlyDate(s);
    }
  }

  lemma SilentAfterLeapDay(s: Spec, k: int)
    requires !Recurs(s)
    requires LEAP_EVENING < k < LEAP_EVENING + 1460 * 1440
    ensures !Fires(s, k)
  {
    hide DayNumber, MonthIndex, DayOfMonth, YearOf;
    MinuteRoundTrip(k);
    assert DayNumber(2020, 2, 29) < Day(k) <= DayNumber(2020, 2, 29) + 1460;
    NoLeapDayAfter(Day(k));
    if Fires(s, k) {
      FireOnYearlyDate(s, k);
    }
  }

  /**
    Next returns a matching time before its limit from every instant if and only if
    the expression recurs. The one family that fails fires on 29 February only, or never.
   */
  lemma NextAlwaysFinds(s: Spec)
    ensures (forall from, r :: IsNext(s, from, r) ==> r < from + HORIZON_NS) <==> Recurs(s)
  {
    if Recurs(s) {
      forall from, r | IsNext(s, from, r) ensures r < from + HORIZON_NS {
        var k := FiresWithinHorizon(s, from);
      }
    } else {
      var from := LEAP_EVENING * MINUTE_NS;
      forall k | from < k * MINUTE_NS < from + HORIZON_NS ensures !Fires(s, k) {
        SilentAfterLeapDay(s, k);
      }
      assert IsNext(s, from, from + HORIZON_NS);
    }
  }

  /** The instants that calling Next again and again from ts[0] gives. */
  ghost predicate Iterates(s: Spec, ts: seq<int>) {
    && |ts| > 0
    && forall i :: 0 < i < |ts| ==> IsNext(s, ts[i - 1], ts[i])
  }

  /** They are the matching minutes in increasing order, none skipped and none repeated. */
  lemma {:induction false} IteratesListFires(s: Spec, ts: seq<int>)
    requires Recurs(s) && Iterates(s, ts)
    ensures forall i, j :: 0 <= i < j < |ts| ==> ts[i] < ts[j]
    ensures forall k :: ts[0] < k * MINUTE_NS <= ts[|ts| - 1] ==> (Fires(s, k) <==> k * MINUTE_NS in ts[1..])
    ensures forall i :: 0 < i < |ts| ==> ts[i] % MINUTE_NS == 0
    decreases |ts|
  {
    hide Fires, Recurs;
    if |ts| > 1 {
      var n := |ts| - 1;
      var front := ts[..n];
      IteratesListFires(s, front);
      NextAlwaysFinds(s);
      assert IsNext(s, ts[n - 1], ts[n]);
      forall k | ts[0] < k * MINUTE_NS <= ts[n] ensures Fires(s, k) <==> k * MINUTE_NS in ts[1..] {
        assert ts[1..] == front[1..] + [ts[n]];
        if k * MINUTE_NS > ts[n - 1] {
          assert forall i :: 0 <= i < |front[1..]| ==> front[1..][i] == front[i + 1] <= ts[n - 1];
          WholeMinute(0, k);
        }
      }
    }
  }
}
