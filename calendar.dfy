/**
 * Naive local date-times as Python's `datetime` holds them, at a resolution of
 * one second: an instant is the number of seconds since 0001-01-01 00:00:00,
 * and the proleptic Gregorian calendar gives each day its year, month and day.
 * Day 0 (0001-01-01) is a Monday, so `day % 7` is Python's `weekday()`.
 */
module Calendar {
  import opened Text

  const SecondsPerMinute: nat := 60
  const SecondsPerHour: nat := 3600
  const SecondsPerDay: nat := 86400
  const SecondsPerWeek: nat := 604800

  /** Day number of 9999-12-31, the last day `datetime` can represent. */
  const LastDay: nat := 3652058
  /** 9999-12-31 23:59:59: adding past it raises OverflowError in Python. */
  const MaxInstant: nat := (LastDay + 1) * SecondsPerDay - 1

  type Instant = t: int | 0 <= t <= MaxInstant

  function DayOf(t: Instant): (d: nat)
    ensures d <= LastDay
  {
    t / SecondsPerDay
  }

  function SecondOfDay(t: Instant): (s: nat)
    ensures s < SecondsPerDay
    ensures t == DayOf(t) * SecondsPerDay + s
  {
    t % SecondsPerDay
  }

  /** Python's `weekday()`: Monday is 0, Sunday is 6. */
  function Weekday(t: Instant): (w: nat)
    ensures w < 7
  {
    DayOf(t) % 7
  }

  function Hour(t: Instant): (h: nat)
    ensures h < 24
  {
    SecondOfDay(t) / SecondsPerHour
  }

  function Minute(t: Instant): (m: nat)
    ensures m < 60
  {
    SecondOfDay(t) % SecondsPerHour / SecondsPerMinute
  }

  function Second(t: Instant): (s: nat)
    ensures s < 60
  {
    SecondOfDay(t) % SecondsPerMinute
  }

  /** The instant `secs` seconds into day `day`. */
  function At(day: nat, secs: nat): (t: Instant)
    requires day <= LastDay && secs < SecondsPerDay
    ensures DayOf(t) == day && SecondOfDay(t) == secs
  {
    day * SecondsPerDay + secs
  }

  // ---------------------------------------------------------------- civil dates

  predicate IsLeap(y: int) {
    y % 4 == 0 && (y % 100 != 0 || y % 400 == 0)
  }

  function YearLength(y: int): nat {
    if IsLeap(y) then 366 else 365
  }

  /** Days from 0001-01-01 to January 1 of year `y`. */
  function DaysBeforeYear(y: int): int
    requires y >= 1
  {
    var p := y - 1;
    365 * p + p / 4 - p / 100 + p / 400
  }

  lemma DivStep4(y: int)
    requires y >= 1
    ensures y / 4 - (y - 1) / 4 == if y % 4 == 0 then 1 else 0
  {
  }

  lemma DivStep100(y: int)
    requires y >= 1
    ensures y / 100 - (y - 1) / 100 == if y % 100 == 0 then 1 else 0
  {
  }

  lemma DivStep400(y: int)
    requires y >= 1
    ensures y / 400 - (y - 1) / 400 == if y % 400 == 0 then 1 else 0
  {
  }

  lemma DaysBeforeNextYear(y: int)
    requires y >= 1
    ensures DaysBeforeYear(y + 1) == DaysBeforeYear(y) + YearLength(y)
  {
    DivStep4(y);
    DivStep100(y);
    DivStep400(y);
    LeapDivisors(y);
    assert DaysBeforeYear(y + 1) - DaysBeforeYear(y) ==
           365 + (y / 4 - (y - 1) / 4) - (y / 100 - (y - 1) / 100) + (y / 400 - (y - 1) / 400);
  }

  /** A multiple of 400 is a multiple of 100, and a multiple of 100 one of 4. */
  lemma LeapDivisors(y: int)
    ensures y % 400 == 0 ==> y % 100 == 0
    ensures y % 100 == 0 ==> y % 4 == 0
  {
    if y % 400 == 0 {
      var q := y / 400;
      assert y == 400 * q;
    }
    if y % 100 == 0 {
      var q := y / 100;
      assert y == 100 * q;
    }
  }

  lemma {:induction false} DaysBeforeYearMonotone(a: int, b: int)
    requires 1 <= a <= b
    ensures DaysBeforeYear(a) <= DaysBeforeYear(b)
    ensures a < b ==> DaysBeforeYear(a + 1) <= DaysBeforeYear(b)
    decreases b - a
  {
    if a < b {
      DaysBeforeNextYear(a);
      DaysBeforeYearMonotone(a + 1, b);
    }
  }

  function MonthLength(y: int, m: int): nat
    requires 1 <= m <= 12
  {
    if m == 2 then (if IsLeap(y) then 29 else 28)
    else if m == 4 || m == 6 || m == 9 || m == 11 then 30
    else 31
  }

  /** Days from January 1 of year `y` to the first of month `m`. */
  function DaysBeforeMonth(y: int, m: int): nat
    requires 1 <= m <= 12
  {
    var common :=
      if m == 1 then 0 else if m == 2 then 31 else if m == 3 then 59
      else if m == 4 then 90 else if m == 5 then 120 else if m == 6 then 151
      else if m == 7 then 181 else if m == 8 then 212 else if m == 9 then 243
      else if m == 10 then 273 else if m == 11 then 304 else 334;
    common + (if m > 2 && IsLeap(y) then 1 else 0)
  }

  lemma DaysBeforeNextMonth(y: int, m: int)
    requires 1 <= m <= 12
    ensures m < 12 ==> DaysBeforeMonth(y, m + 1) == DaysBeforeMonth(y, m) + MonthLength(y, m)
    ensures m == 12 ==> DaysBeforeMonth(y, m) + MonthLength(y, m) == YearLength(y)
  {
  }

  predicate ValidDate(y: int, m: int, d: int) {
    1 <= y <= 9999 && 1 <= m <= 12 && 1 <= d <= MonthLength(y, m)
  }

  datatype Date = Date(year: int, month: int, day: int)

  /** The day number of a calendar date (Python's `toordinal() - 1`). */
  function DayNumber(y: int, m: int, d: int): (n: nat)
    requires ValidDate(y, m, d)
    ensures n <= LastDay
  {
    DaysBeforeNextMonth(y, m);
    DaysBeforeNextYear(y);
    DaysBeforeYearMonotone(y + 1, 10000);
    DaysBeforeYear(y) + DaysBeforeMonth(y, m) + d - 1
  }

  function YearFrom(n: nat, y: int): (r: int)
    requires 1 <= y <= 9999 && DaysBeforeYear(y) <= n < DaysBeforeYear(10000)
    ensures y <= r <= 9999 && DaysBeforeYear(r) <= n < DaysBeforeYear(r + 1)
    decreases 9999 - y
  {
    DaysBeforeNextYear(y);
    if n < DaysBeforeYear(y + 1) then y else YearFrom(n, y + 1)
  }

  function MonthFrom(y: int, r: nat, m: int): (k: int)
    requires 1 <= m <= 12 && DaysBeforeMonth(y, m) <= r < YearLength(y)
    ensures m <= k <= 12
    ensures DaysBeforeMonth(y, k) <= r < DaysBeforeMonth(y, k) + MonthLength(y, k)
    decreases 12 - m
  {
    DaysBeforeNextMonth(y, m);
    if r < DaysBeforeMonth(y, m) + MonthLength(y, m) then m else MonthFrom(y, r, m + 1)
  }

  /** The calendar date of day number `n`. */
  function CivilDate(n: nat): (d: Date)
    requires n <= LastDay
    ensures ValidDate(d.year, d.month, d.day)
    ensures DayNumber(d.year, d.month, d.day) == n
  {
    var y := YearFrom(n, 1);
    DaysBeforeNextYear(y);
    var m := MonthFrom(y, n - DaysBeforeYear(y), 1);
    Date(y, m, n - DaysBeforeYear(y) - DaysBeforeMonth(y, m) + 1)
  }

  /** Distinct dates have distinct day numbers. */
  lemma {:induction false} DayNumberInjective(y1: int, m1: int, d1: int, y2: int, m2: int, d2: int)
    requires ValidDate(y1, m1, d1) && ValidDate(y2, m2, d2)
    requires DayNumber(y1, m1, d1) == DayNumber(y2, m2, d2)
    ensures y1 == y2 && m1 == m2 && d1 == d2
  {
    DaysBeforeNextMonth(y1, m1);
    DaysBeforeNextMonth(y2, m2);
    DaysBeforeNextYear(y1);
    DaysBeforeNextYear(y2);
    MonthsBeforeEnd(y1, m1);
    MonthsBeforeEnd(y2, m2);
    if y1 < y2 {
      DaysBeforeYearMonotone(y1, y2);
      assert false;
    } else if y2 < y1 {
      DaysBeforeYearMonotone(y2, y1);
      assert false;
    }
    if m1 < m2 {
      MonthsMonotone(y1, m1, m2);
      assert false;
    } else if m2 < m1 {
      MonthsMonotone(y1, m2, m1);
      assert false;
    }
  }

  lemma {:induction false} MonthsMonotone(y: int, a: int, b: int)
    requires 1 <= a < b <= 12
    ensures DaysBeforeMonth(y, a) + MonthLength(y, a) <= DaysBeforeMonth(y, b)
  {
  }

  lemma MonthsBeforeEnd(y: int, m: int)
    requires 1 <= m <= 12
    ensures DaysBeforeMonth(y, m) + MonthLength(y, m) <= YearLength(y)
  {
  }

  /** CivilDate inverts DayNumber. */
  lemma CivilDateOfDayNumber(y: int, m: int, d: int)
    requires ValidDate(y, m, d)
    ensures CivilDate(DayNumber(y, m, d)) == Date(y, m, d)
  {
    var c := CivilDate(DayNumber(y, m, d));
    DayNumberInjective(c.year, c.month, c.day, y, m, d);
  }

  // ---------------------------------------------------------------- rendering

  /** `strftime("%Y-%m-%d")` of a day. */
  function DateText(n: nat): string
    requires n <= LastDay
  {
    var d := CivilDate(n);
    PadNat(d.year, 4) + "-" + PadNat(d.month, 2) + "-" + PadNat(d.day, 2)
  }

  /** `isoformat()` of a datetime with no microseconds: `YYYY-MM-DDTHH:MM:SS`. */
  function IsoFormat(t: Instant): string {
    DateText(DayOf(t)) + "T" + PadNat(Hour(t), 2) + ":" + PadNat(Minute(t), 2) + ":" + PadNat(Second(t), 2)
  }
}
