/**
  The UTC proleptic Gregorian calendar that Go's time package computes with.
  Day 0 is Monday, 1 January of year 1; years before it are negative or zero.
 */
module Calendar {

  predicate Leap(y: int) { y % 4 == 0 && (y % 100 != 0 || y % 400 == 0) }

  function DaysBeforeYear(y: int): int {
    365 * (y - 1) + (y - 1) / 4 - (y - 1) / 100 + (y - 1) / 400
  }

  function DaysInMonth(y: int, m: int): int
    requires 1 <= m <= 12
  {
    if m == 2 then (if Leap(y) then 29 else 28)
    else if m == 4 || m == 6 || m == 9 || m == 11 then 30
    else 31
  }

  function DaysBeforeMonth(y: int, m: int): int
    requires 1 <= m <= 13
    decreases m
  {
    if m == 1 then 0 else DaysBeforeMonth(y, m - 1) + DaysInMonth(y, m - 1)
  }

  lemma YearLength(y: int)
    ensures DaysBeforeYear(y + 1) == DaysBeforeYear(y) + DaysBeforeMonth(y, 13)
    ensures DaysBeforeMonth(y, 13) == if Leap(y) then 366 else 365
  {
    var s := DaysBeforeMonth(y, 5);
    assert s == DaysBeforeMonth(y, 3) + 61;
    assert DaysBeforeMonth(y, 9) == s + 123;
    assert DaysBeforeMonth(y, 13) == DaysBeforeMonth(y, 9) + 122;
    LeapDay(y);
  }

  lemma LeapDay(y: int)
    ensures DaysBeforeYear(y + 1) - DaysBeforeYear(y) == if Leap(y) then 366 else 365
  {
    YearStep(y);
    assert DaysBeforeYear(y + 1) == 365 * y + y / 4 - y / 100 + y / 400;
  }

  lemma YearStep(y: int)
    ensures y / 4 - (y - 1) / 4 == if y % 4 == 0 then 1 else 0
    ensures y / 100 - (y - 1) / 100 == if y % 100 == 0 then 1 else 0
    ensures y / 400 - (y - 1) / 400 == if y % 400 == 0 then 1 else 0
    ensures y % 400 == 0 ==> y % 100 == 0
    ensures y % 100 == 0 ==> y % 4 == 0
  {
    assert y / 4 - (y - 1) / 4 == if y % 4 == 0 then 1 else 0;
    assert y / 100 - (y - 1) / 100 == if y % 100 == 0 then 1 else 0;
    assert y / 400 - (y - 1) / 400 == if y % 400 == 0 then 1 else 0;
  }

  lemma {:induction false} YearsOrdered(a: int, b: int)
    requires a < b
    ensures DaysBeforeYear(a + 1) <= DaysBeforeYear(b)
    decreases b - a
  {
    if a + 1 < b {
      YearLength(a + 1);
      YearsOrdered(a + 1, b);
    }
  }

  lemma CycleStart(a: int, c: int, q: int, r: int)
    requires 0 <= c <= 3 && 0 <= q <= 24 && 0 <= r <= 3
    ensures DaysBeforeYear(400 * a + 100 * c + 4 * q + r + 1) == 146097 * a + 36524 * c + 1461 * q + 365 * r
  {
    var n := 400 * a + 100 * c + 4 * q + r;
    assert n / 4 == 100 * a + 25 * c + q;
    assert n / 100 == 4 * a + c;
    assert n / 400 == a;
  }

  lemma CycleLeap(a: int, c: int, q: int, r: int)
    requires 0 <= c <= 3 && 0 <= q <= 24 && 0 <= r <= 3
    ensures Leap(400 * a + 100 * c + 4 * q + r + 1) <==> r == 3 && (q != 24 || c == 3)
  {
    if r < 3 {
      FourRemainder(100 * a + 25 * c + q, r + 1);
    } else if q < 24 {
      FourRemainder(100 * a + 25 * c + q + 1, 0);
      HundredRemainder(4 * a + c, 4 * q + 4);
    } else if c < 3 {
      HundredRemainder(4 * a + c + 1, 0);
      FourHundredRemainder(a, 100 * c + 100);
    } else {
      FourRemainder(100 * a + 100, 0);
      FourHundredRemainder(a + 1, 0);
    }
  }

  lemma FourRemainder(k: int, rem: int)
    requires 0 <= rem < 4
    ensures (4 * k + rem) % 4 == rem
  {
  }

  lemma HundredRemainder(k: int, rem: int)
    requires 0 <= rem < 100
    ensures (100 * k + rem) % 100 == rem
  {
  }

  lemma FourHundredRemainder(k: int, rem: int)
    requires 0 <= rem < 400
    ensures (400 * k + rem) % 400 == rem
  {
  }

  /** The year a day falls in. */
  function YearOf(day: int): (y: int)
    ensures DaysBeforeYear(y) <= day < DaysBeforeYear(y + 1)
  {
    var a, d := day / 146097, day % 146097;
    var c := if d / 36524 == 4 then 3 else d / 36524;
    var q, e := (d - 36524 * c) / 1461, (d - 36524 * c) % 1461;
    var r := if e / 365 == 4 then 3 else e / 365;
    var y := 400 * a + 100 * c + 4 * q + r + 1;
    CycleStart(a, c, q, r);
    CycleLeap(a, c, q, r);
    LeapDay(y);
    y
  }

  // --- Months, numbered without gaps: month m of year y is 12 * y + m - 1 ---

  function YearOfIndex(i: int): int { i / 12 }

  function MonthOfIndex(i: int): int { i % 12 + 1 }

  /** The first day of a month. */
  function MonthStart(i: int): int {
    DaysBeforeYear(YearOfIndex(i)) + DaysBeforeMonth(YearOfIndex(i), MonthOfIndex(i))
  }

  lemma MonthLength(i: int)
    ensures MonthStart(i + 1) == MonthStart(i) + DaysInMonth(YearOfIndex(i), MonthOfIndex(i))
  {
    YearLength(YearOfIndex(i));
    if i % 12 == 11 {
      assert (i + 1) / 12 == i / 12 + 1;
    } else {
      assert (i + 1) / 12 == i / 12;
    }
  }

  lemma {:induction false} MonthsOrdered(i: int, j: int)
    requires i < j
    ensures MonthStart(i + 1) <= MonthStart(j)
    decreases j - i
  {
    if i + 1 < j {
      MonthLength(i + 1);
      MonthsOrdered(i + 1, j);
    }
  }

  function MonthFrom(y: int, yday: int, m: int): (r: int)
    requires 1 <= m <= 12 && 0 <= yday < DaysBeforeMonth(y, m + 1)
    ensures 1 <= r <= m && DaysBeforeMonth(y, r) <= yday < DaysBeforeMonth(y, r + 1)
    decreases m
  {
    if DaysBeforeMonth(y, m) <= yday then m else MonthFrom(y, yday, m - 1)
  }

  /** The month a day falls in. */
  function MonthIndex(day: int): (i: int)
    ensures MonthStart(i) <= day < MonthStart(i + 1)
    ensures YearOfIndex(i) == YearOf(day)
  {
    var y := YearOf(day);
    YearLength(y);
    var m := MonthFrom(y, day - DaysBeforeYear(y), 12);
    var i := 12 * y + m - 1;
    assert YearOfIndex(i) == y && MonthOfIndex(i) == m;
    MonthLength(i);
    i
  }

  lemma MonthUnique(day: int, i: int)
    requires MonthStart(i) <= day < MonthStart(i + 1)
    ensures MonthIndex(day) == i
  {
    hide *;
    var j := MonthIndex(day);
    if i < j { MonthsOrdered(i, j); }
    if j < i { MonthsOrdered(j, i); }
  }

  /** Days before the start of month j fall in earlier months, and later days in no earlier month. */
  lemma MonthIndexMonotone(d: int, e: int, j: int)
    requires d <= e < MonthStart(j)
    ensures MonthIndex(d) <= MonthIndex(e) < j
  {
    hide *;
    var x, y := MonthIndex(d), MonthIndex(e);
    if y < x { MonthsOrdered(y, x); }
    if j <= y { MonthsOrdered(j - 1, y); }
  }

  // --- What time.Time reports and time.Date builds ---

  function Month(day: int): int { MonthOfIndex(MonthIndex(day)) }

  function DayOfMonth(day: int): int { day - MonthStart(MonthIndex(day)) + 1 }

  /** Sunday is 0. */
  function Weekday(day: int): int { (day + 1) % 7 }

  /** The day number time.Date gives year y, month m, day d; d may be past the end of the month. */
  function DayNumber(y: int, m: int, d: int): int
    requires 1 <= m <= 12
  {
    DaysBeforeYear(y) + DaysBeforeMonth(y, m) + d - 1
  }

  /** Zeller's congruence: the weekday of a date from its century, its year of the century, its month and its day. */
  function Zeller(y: int, m: int, d: int): int
    requires 1 <= m <= 12
  {
    var y', m' := if m <= 2 then y - 1 else y, if m <= 2 then m + 12 else m;
    var century, year := y' / 100, y' % 100;
    (d + 13 * (m' + 1) / 5 + year + year / 4 + century / 4 - 2 * century + 6) % 7
  }

  /** The weekday of every date is what the congruence gives. */
  lemma WeekdayIsZeller(y: int, m: int, d: int)
    requires 1 <= m <= 12
    ensures Weekday(DayNumber(y, m, d)) == Zeller(y, m, d)
  {
    var b, m' := if m <= 2 then y - 1 else y, if m <= 2 then m + 12 else m;
    var century, year := b / 100, b % 100;
    DaysFromMarch(y, m);
    assert b / 4 == 25 * century + year / 4 && b / 400 == century / 4;
    var sum := d + 13 * (m' + 1) / 5 + year + year / 4 + century / 4 - 2 * century + 6;
    assert DayNumber(y, m, d) + 1 == sum + 7 * (5218 * century + 52 * year + 4 * m' - 58);
    SevenRemainder(sum, 5218 * century + 52 * year + 4 * m' - 58);
  }

  /** Where a month starts, counting the months from March. */
  lemma DaysFromMarch(y: int, m: int)
    requires 1 <= m <= 12
    ensures var (b, m') := if m <= 2 then (y - 1, m + 12) else (y, m);
      DaysBeforeYear(y) + DaysBeforeMonth(y, m) ==
        365 * b + b / 4 - b / 100 + b / 400 + 13 * (m' + 1) / 5 + 28 * m' - 400
  {
    LeapDay(y);
    assert DaysBeforeMonth(y, 3) == if Leap(y) then 60 else 59;
    if m > 2 {
      MonthsFromMarch(y, m);
    }
  }

  lemma {:induction false} MonthsFromMarch(y: int, m: int)
    requires 3 <= m <= 12
    ensures DaysBeforeMonth(y, m) == DaysBeforeMonth(y, 3) + 13 * (m + 1) / 5 + 28 * m - 94
    decreases m
  {
    if m > 3 { MonthsFromMarch(y, m - 1); }
  }

  lemma SevenRemainder(n: int, q: int)
    ensures (n + 7 * q) % 7 == n % 7
  {
  }

  /** The day after is the next weekday, and 1 January 1970 was a Thursday. */
  lemma WeekdayAnchored(day: int)
    ensures Weekday(day + 1) == if Weekday(day) == 6 then 0 else Weekday(day) + 1
    ensures Weekday(DayNumber(1970, 1, 1)) == 4
  {
  }

  /** The reported date of a day is a date, and building it gives the day back. */
  lemma DateRoundTrip(day: int)
    ensures 1 <= Month(day) <= 12
    ensures 1 <= DayOfMonth(day) <= DaysInMonth(YearOf(day), Month(day))
    ensures DayNumber(YearOf(day), Month(day), DayOfMonth(day)) == day
  {
    MonthLength(MonthIndex(day));
  }

  /** Every date is reported back by the day it builds. */
  lemma NumberRoundTrip(y: int, m: int, d: int)
    requires 1 <= m <= 12 && 1 <= d <= DaysInMonth(y, m)
    ensures YearOf(DayNumber(y, m, d)) == y
    ensures Month(DayNumber(y, m, d)) == m
    ensures DayOfMonth(DayNumber(y, m, d)) == d
  {
    var i := 12 * y + m - 1;
    assert YearOfIndex(i) == y && MonthOfIndex(i) == m;
    MonthLength(i);
    MonthUnique(DayNumber(y, m, d), i);
  }

  // --- Minutes ---

  /** A minute is numbered from the start of day 0. */
  function MinuteNumber(day: int, hour: int, minute: int): int { 1440 * day + 60 * hour + minute }

  function Day(k: int): int { k / 1440 }

  function Hour(k: int): int { k % 1440 / 60 }

  function Minute(k: int): int { k % 1440 % 60 }

  lemma MinuteRoundTrip(k: int)
    ensures MinuteNumber(Day(k), Hour(k), Minute(k)) == k
    ensures 0 <= Hour(k) < 24 && 0 <= Minute(k) < 60
  {
  }

  lemma ClockRoundTrip(day: int, hour: int, minute: int)
    requires 0 <= hour < 24 && 0 <= minute < 60
    ensures Day(MinuteNumber(day, hour, minute)) == day
    ensures Hour(MinuteNumber(day, hour, minute)) == hour
    ensures Minute(MinuteNumber(day, hour, minute)) == minute
  {
    var k := MinuteNumber(day, hour, minute);
    assert k / 1440 == day;
    assert k % 1440 == 60 * hour + minute;
  }

  /** Minutes of the same day come in the order of their hours, and of their minutes within the hour. */
  lemma ClockOrder(j: int, k: int)
    requires j <= k
    ensures Day(j) <= Day(k)
    ensures Day(j) == Day(k) ==> Hour(j) <= Hour(k)
    ensures Day(j) == Day(k) && Hour(j) == Hour(k) ==> Minute(j) <= Minute(k)
  {
    MinuteRoundTrip(j);
    MinuteRoundTrip(k);
  }
}
