/**
  Local civil date-times and the day arithmetic that the ECMAScript `Date`
  object performs on them: leap years, month lengths, day numbers counted
  from 1970-01-01, the day of the week (Sunday = 0) and a millisecond
  instant used to compare two date-times.

  Months are numbered 0..11, as `Date.prototype.getMonth` returns them.
*/
module Calendar {

  const MsPerDay: int := 86400000

  /** A local calendar date-time, field by field as the `Date` getters return them. */
  datatype DateTime = DateTime(year: int, month: int, day: int,
                               hour: int, minute: int, second: int, ms: int)

  predicate IsLeapYear(y: int) {
    y % 4 == 0 && (y % 100 != 0 || y % 400 == 0)
  }

  function DaysInYear(y: int): int {
    if IsLeapYear(y) then 366 else 365
  }

  function DaysInMonth(y: int, m: int): (n: int)
    requires 0 <= m < 12
    ensures 28 <= n <= 31
  {
    if m == 1 then (if IsLeapYear(y) then 29 else 28)
    else if m == 3 || m == 5 || m == 8 || m == 10 then 30
    else 31
  }

  /** Days of year `y` that precede the first day of month `m` (m = 12 gives the whole year). */
  function DaysBeforeMonth(y: int, m: int): (n: int)
    requires 0 <= m <= 12
    ensures 0 <= n <= 366
  {
    var leapDay := if m >= 2 && IsLeapYear(y) then 1 else 0;
    leapDay +
    (if m == 0 then 0 else if m == 1 then 31 else if m == 2 then 59
     else if m == 3 then 90 else if m == 4 then 120 else if m == 5 then 151
     else if m == 6 then 181 else if m == 7 then 212 else if m == 8 then 243
     else if m == 9 then 273 else if m == 10 then 304 else if m == 11 then 334
     else 365)
  }

  /** ECMAScript DayFromYear: the day number of January 1 of year `y`. */
  function DayFromYear(y: int): int {
    365 * (y - 1970) + (y - 1969) / 4 - (y - 1901) / 100 + (y - 1601) / 400
  }

  /**
    ECMAScript MakeDay: the day number of day `d` of month `m` of year `y`,
    where an out-of-range month carries into the year and an out-of-range
    day simply counts on from the first of the month.
  */
  function MakeDay(y: int, m: int, d: int): int {
    var ym := y + m / 12;
    var mn := m % 12;
    DayFromYear(ym) + DaysBeforeMonth(ym, mn) + d - 1
  }

  function DayNumber(t: DateTime): int {
    MakeDay(t.year, t.month, t.day)
  }

  /** `Date.prototype.getDay`: 0 = Sunday .. 6 = Saturday; day 0 was a Thursday. */
  function DayOfWeek(t: DateTime): int {
    (DayNumber(t) + 4) % 7
  }

  function TimeOfDay(t: DateTime): int {
    ((t.hour * 60 + t.minute) * 60 + t.second) * 1000 + t.ms
  }

  /** Milliseconds since 1970-01-01 00:00:00.000 local time. */
  function Instant(t: DateTime): int {
    DayNumber(t) * MsPerDay + TimeOfDay(t)
  }

  predicate ValidTime(h: int, mi: int, s: int, ms: int) {
    0 <= h < 24 && 0 <= mi < 60 && 0 <= s < 60 && 0 <= ms < 1000
  }

  predicate ValidDate(y: int, m: int, d: int) {
    0 <= m < 12 && 1 <= d <= DaysInMonth(y, m)
  }

  predicate ValidDateTime(t: DateTime) {
    ValidDate(t.year, t.month, t.day) && ValidTime(t.hour, t.minute, t.second, t.ms)
  }

  predicate IsStartOfDay(t: DateTime) {
    t.hour == 0 && t.minute == 0 && t.second == 0 && t.ms == 0
  }

  predicate IsEndOfDay(t: DateTime) {
    t.hour == 23 && t.minute == 59 && t.second == 59 && t.ms == 999
  }

  // ---------------------------------------------------------------------
  // Day arithmetic
  // ---------------------------------------------------------------------

  /** Each year adds its own length to the day number of January 1. */
  lemma {:induction false} DayFromYearNext(y: int)
    ensures DayFromYear(y + 1) == DayFromYear(y) + DaysInYear(y)
  {
    assert (y - 1968) / 4 == (y - 1969) / 4 + (if y % 4 == 0 then 1 else 0);
    assert (y - 1900) / 100 == (y - 1901) / 100 + (if y % 100 == 0 then 1 else 0);
    assert (y - 1600) / 400 == (y - 1601) / 400 + (if y % 400 == 0 then 1 else 0);
    CenturiesAreLeapCandidates(y);
  }

  lemma {:induction false} CenturiesAreLeapCandidates(y: int)
    ensures y % 100 == 0 ==> y % 4 == 0
    ensures y % 400 == 0 ==> y % 100 == 0
  {
    if y % 100 == 0 {
      var c := y / 100;
      assert y == 4 * (25 * c);
    }
    if y % 400 == 0 {
      var c := y / 400;
      assert y == 100 * (4 * c);
    }
  }

  lemma {:induction false} DayFromYearMonotone(a: int, b: int)
    requires a < b
    ensures DayFromYear(a) + DaysInYear(a) <= DayFromYear(b)
    decreases b - a
  {
    DayFromYearNext(a);
    if a + 1 < b {
      DayFromYearMonotone(a + 1, b);
    }
  }

  lemma {:induction false} DaysBeforeMonthNext(y: int, m: int)
    requires 0 <= m < 12
    ensures DaysBeforeMonth(y, m + 1) == DaysBeforeMonth(y, m) + DaysInMonth(y, m)
  {
  }

  lemma {:induction false} DaysBeforeMonthMonotone(y: int, a: int, b: int)
    requires 0 <= a < b < 12
    ensures DaysBeforeMonth(y, a) + DaysInMonth(y, a) <= DaysBeforeMonth(y, b)
  {
  }

  lemma {:induction false} DaysBeforeMonthYear(y: int)
    ensures DaysBeforeMonth(y, 12) == DaysInYear(y)
  {
  }

  /** With the month already in range, MakeDay is plain addition. */
  lemma {:induction false} MakeDayInRange(y: int, m: int, d: int)
    requires 0 <= m < 12
    ensures MakeDay(y, m, d) == DayFromYear(y) + DaysBeforeMonth(y, m) + d - 1
  {
  }

  /** MakeDay counts the day argument linearly. */
  lemma {:induction false} MakeDayShift(y: int, m: int, d: int, k: int)
    ensures MakeDay(y, m, d + k) == MakeDay(y, m, d) + k
  {
  }

  /**
    Day 0 of month m + 1 is the last day of month m: this is how
    `new Date(y, m + 1, 0)` finds the end of a month, including December.
  */
  lemma {:induction false} MonthEnd(y: int, m: int)
    requires 0 <= m < 12
    ensures MakeDay(y, m + 1, 0) == MakeDay(y, m, DaysInMonth(y, m))
  {
    if m == 11 {
      DecemberEnd(y);
    } else {
      MakeDayInRange(y, m, DaysInMonth(y, m));
      DaysBeforeMonthNext(y, m);
      MakeDayInRange(y, m + 1, 0);
    }
  }

  /** MakeDay carries a month past December into the year. */
  lemma {:induction false} MakeDayCarry(y: int, m: int, d: int, cy: int, cm: int)
    requires cy == y + m / 12 && cm == m % 12
    ensures 0 <= cm < 12 && MakeDay(cy, cm, d) == MakeDay(y, m, d)
  {
    assert cm / 12 == 0 && cm % 12 == cm;
  }

  /** Moving the day count from month m to month m + 1 of the same year. */
  lemma {:induction false} MonthCarry(y: int, m: int, d: int)
    requires 0 <= m < 11
    ensures MakeDay(y, m + 1, d - DaysInMonth(y, m)) == MakeDay(y, m, d)
  {
    MakeDayInRange(y, m, d);
    MakeDayInRange(y, m + 1, d - DaysInMonth(y, m));
    DaysBeforeMonthNext(y, m);
  }

  /** Moving the day count from December to January of the next year. */
  lemma {:induction false} YearCarry(y: int, d: int)
    ensures MakeDay(y + 1, 0, d - DaysInMonth(y, 11)) == MakeDay(y, 11, d)
  {
    MakeDayInRange(y, 11, d);
    MakeDayInRange(y + 1, 0, d - 31);
    DaysBeforeMonthNext(y, 11);
    DaysBeforeMonthYear(y);
    DayFromYearNext(y);
  }

  /** Moving the day count from month m back to month m - 1 of the same year. */
  lemma {:induction false} MonthCarryBack(y: int, m: int, d: int)
    requires 0 < m < 12
    ensures MakeDay(y, m - 1, d + DaysInMonth(y, m - 1)) == MakeDay(y, m, d)
  {
    MonthCarry(y, m - 1, d + DaysInMonth(y, m - 1));
    assert m - 1 + 1 == m && d + DaysInMonth(y, m - 1) - DaysInMonth(y, m - 1) == d;
  }

  /** Moving the day count from January back to December of the previous year. */
  lemma {:induction false} YearCarryBack(y: int, d: int)
    ensures MakeDay(y - 1, 11, d + DaysInMonth(y - 1, 11)) == MakeDay(y, 0, d)
  {
    YearCarry(y - 1, d + DaysInMonth(y - 1, 11));
    assert y - 1 + 1 == y && d + DaysInMonth(y - 1, 11) - DaysInMonth(y - 1, 11) == d;
  }

  /** Counting day `d` of month m from the start of the month after instead. */
  lemma {:induction false} NextMonth(y: int, m: int, d: int, ly: int, lm: int, ld: int)
    requires 0 <= m < 12
    requires ly == (if m == 11 then y + 1 else y) && lm == (if m == 11 then 0 else m + 1)
    requires ld == d - DaysInMonth(y, m)
    ensures MakeDay(ly, lm, ld) == MakeDay(y, m, d)
  {
    if m == 11 {
      YearCarry(y, d);
    } else {
      MonthCarry(y, m, d);
    }
  }

  /** Counting day `d` of month m from the start of the month before instead. */
  lemma {:induction false} PreviousMonth(y: int, m: int, d: int, py: int, pm: int, pd: int)
    requires 0 <= m < 12
    requires py == (if m == 0 then y - 1 else y) && pm == (if m == 0 then 11 else m - 1)
    requires pd == d + DaysInMonth(py, pm)
    ensures MakeDay(py, pm, pd) == MakeDay(y, m, d)
  {
    if m == 0 {
      YearCarryBack(y, d);
    } else {
      MonthCarryBack(y, m, d);
    }
  }

  /** Day 0 of the thirteenth month is December 31. */
  lemma {:induction false} DecemberEnd(y: int)
    ensures MakeDay(y, 12, 0) == MakeDay(y, 11, 31)
  {
    assert MakeDay(y, 12, 0) == DayFromYear(y + 1) - 1;
    assert MakeDay(y, 11, 31) == DayFromYear(y) + DaysBeforeMonth(y, 11) + 30;
    DayFromYearNext(y);
  }

  /** A valid date falls between January 1 of its year and January 1 of the next. */
  lemma {:induction false} DayNumberWithinYear(t: DateTime)
    requires ValidDate(t.year, t.month, t.day)
    ensures DayFromYear(t.year) + DaysBeforeMonth(t.year, t.month) <= DayNumber(t)
    ensures DayNumber(t) < DayFromYear(t.year) + DaysBeforeMonth(t.year, t.month) + DaysInMonth(t.year, t.month)
    ensures DayNumber(t) < DayFromYear(t.year) + DaysInYear(t.year)
  {
    MakeDayInRange(t.year, t.month, t.day);
    DaysBeforeMonthNext(t.year, t.month);
    if t.month < 11 {
      DaysBeforeMonthMonotone(t.year, t.month, 11);
    }
    DaysBeforeMonthNext(t.year, 11);
    DaysBeforeMonthYear(t.year);
  }

  /** A day number names at most one valid calendar date. */
  lemma {:induction false} DayNumberInjective(a: DateTime, b: DateTime)
    requires ValidDate(a.year, a.month, a.day) && ValidDate(b.year, b.month, b.day)
    requires DayNumber(a) == DayNumber(b)
    ensures a.year == b.year && a.month == b.month && a.day == b.day
  {
    if a.year < b.year {
      EarlierYearEarlierDay(a, b);
    } else if b.year < a.year {
      EarlierYearEarlierDay(b, a);
    } else if a.month < b.month {
      EarlierMonthEarlierDay(a, b);
    } else if b.month < a.month {
      EarlierMonthEarlierDay(b, a);
    } else {
      MakeDayInRange(a.year, a.month, a.day);
      MakeDayInRange(b.year, b.month, b.day);
    }
  }

  /** Every day of an earlier year comes before every day of a later one. */
  lemma {:induction false} EarlierYearEarlierDay(a: DateTime, b: DateTime)
    requires ValidDate(a.year, a.month, a.day) && ValidDate(b.year, b.month, b.day)
    requires a.year < b.year
    ensures DayNumber(a) < DayNumber(b)
  {
    DayNumberWithinYear(a);
    DayNumberWithinYear(b);
    DayFromYearMonotone(a.year, b.year);
  }

  /** Within a year, every day of an earlier month comes before every day of a later one. */
  lemma {:induction false} EarlierMonthEarlierDay(a: DateTime, b: DateTime)
    requires ValidDate(a.year, a.month, a.day) && ValidDate(b.year, b.month, b.day)
    requires a.year == b.year && a.month < b.month
    ensures DayNumber(a) < DayNumber(b)
  {
    DayNumberWithinYear(a);
    DayNumberWithinYear(b);
    DaysBeforeMonthMonotone(a.year, a.month, b.month);
  }

  /**
    Within one year, a later instant never lies in an earlier month: the
    month order of a date-descending sequence of same-year records.
  */
  lemma {:induction false} MonthFollowsInstant(a: DateTime, b: DateTime)
    requires ValidDateTime(a) && ValidDateTime(b) && a.year == b.year
    requires Instant(a) <= Instant(b)
    ensures a.month <= b.month
  {
    if b.month < a.month {
      EarlierMonthEarlierDay(b, a);
      InstantDayOrder(a, b);
    }
  }

  /**
    Stepping back from day n by its own day-of-week index lands on a Sunday:
    the week start `d - getDay()`.
  */
  lemma {:induction false} StepBackToSunday(n: int)
    ensures (n - (n + 4) % 7 + 4) % 7 == 0
  {
    var q := (n + 4) / 7;
    assert n + 4 == 7 * q + (n + 4) % 7;
    assert n - (n + 4) % 7 + 4 == 7 * q;
  }

  /** Instants order date-times by their day numbers first. */
  lemma {:induction false} InstantDayOrder(a: DateTime, b: DateTime)
    requires ValidTime(a.hour, a.minute, a.second, a.ms)
    requires ValidTime(b.hour, b.minute, b.second, b.ms)
    ensures DayNumber(a) < DayNumber(b) ==> Instant(a) < Instant(b)
    ensures Instant(a) <= Instant(b) ==> DayNumber(a) <= DayNumber(b)
    ensures 0 <= TimeOfDay(a) < MsPerDay
  {
  }
}
