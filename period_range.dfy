/**
  The period range resolver shared by the expense list and the chart
  endpoints: from a reference local date-time and a period it builds the
  inclusive [start, end] interval of the query, by creating and mutating
  `Date` objects the way the `switch (period)` of both routes does.
*/
module PeriodRange {
  import opened Calendar
  import opened JsDates

  datatype Period = Daily | Weekly | Monthly | Yearly | Unrecognized

  /** The `switch (period)` labels; every other string takes the `default` branch. */
  function ParsePeriod(s: string): (p: Period)
    ensures p == Daily <==> s == "daily"
    ensures p == Weekly <==> s == "weekly"
    ensures p == Monthly <==> s == "monthly"
    ensures p == Yearly <==> s == "yearly"
  {
    if s == "daily" then Daily
    else if s == "weekly" then Weekly
    else if s == "monthly" then Monthly
    else if s == "yearly" then Yearly
    else Unrecognized
  }

  datatype DateRange = DateRange(start: DateTime, end: DateTime)

  predicate SameDay(a: DateTime, b: DateTime) {
    a.year == b.year && a.month == b.month && a.day == b.day
  }

  /** Number of calendar days covered by the range of `period` around `ref`. */
  function SpanDays(period: Period, ref: DateTime): int
    requires 0 <= ref.month < 12
  {
    match period
    case Weekly => 7
    case Monthly => DaysInMonth(ref.year, ref.month)
    case Yearly => DaysInYear(ref.year)
    case _ => 1
  }

  /**
    What the range of `period` around `ref` is: it starts at 00:00:00.000 and
    ends at 23:59:59.999 of
    - daily and unrecognised periods: the reference day itself;
    - weekly: the Sunday on or before the reference day, and six days later;
    - monthly: day 1 and the last day of the reference month;
    - yearly: January 1 and December 31 of the reference year.
  */
  predicate IsRangeFor(period: Period, ref: DateTime, r: DateRange)
    requires ValidDateTime(ref)
  {
    && ValidDateTime(r.start) && ValidDateTime(r.end)
    && IsStartOfDay(r.start) && IsEndOfDay(r.end)
    && match period
       case Weekly =>
         && DayOfWeek(r.start) == 0
         && DayNumber(ref) - 6 <= DayNumber(r.start) <= DayNumber(ref)
         && DayNumber(r.end) == DayNumber(r.start) + 6
       case Monthly =>
         && r.start.year == ref.year && r.start.month == ref.month && r.start.day == 1
         && r.end.year == ref.year && r.end.month == ref.month
         && r.end.day == DaysInMonth(ref.year, ref.month)
       case Yearly =>
         && r.start.year == ref.year && r.start.month == 0 && r.start.day == 1
         && r.end.year == ref.year && r.end.month == 11 && r.end.day == 31
       case _ =>
         SameDay(r.start, ref) && SameDay(r.end, ref)
  }

  /**
    The corrected form of `new Date(y, m, d, h, mi, s, ms)`: the year goes
    through `setFullYear`, so years 0..99 are not read as 1900..1999.
  */
  method NewLocalDate(y: int, m: int, d: int, h: int, mi: int, s: int, ms: int) returns (t: JsDate)
    requires ValidTime(h, mi, s, ms)
    ensures fresh(t) && t.Valid()
    ensures DayNumber(t.Value()) == MakeDay(y, m, d)
    ensures t.hours == h && t.minutes == mi && t.seconds == s && t.milliseconds == ms
  {
    t := new JsDate.FromValue(DateTime(1970, 0, 1, 0, 0, 0, 0));
    t.SetFullYear(y, m, d);
    t.SetHours(h, mi, s, ms);
  }

  /** `daily` (corrected): the reference day from 00:00:00.000 to 23:59:59.999. */
  method DailyRange(ref: DateTime) returns (r: DateRange)
    requires ValidDateTime(ref)
    ensures IsRangeFor(Daily, ref, r)
  {
    var targetDate := new JsDate.FromValue(ref);
    var startDate := NewLocalDate(targetDate.year, targetDate.month, targetDate.date, 0, 0, 0, 0);
    var endDate := NewLocalDate(targetDate.year, targetDate.month, targetDate.date, 23, 59, 59, 999);
    r := DateRange(startDate.Value(), endDate.Value());
    DayNumberInjective(r.start, ref);
    DayNumberInjective(r.end, ref);
  }

  /**
    `weekly`: step the reference back by its day-of-week index with
    `setDate`, copy it, zero the time; copy again, step six days on and
    set the time to the last millisecond.
  */
  method WeeklyRange(ref: DateTime) returns (r: DateRange)
    requires ValidDateTime(ref)
    ensures IsRangeFor(Weekly, ref, r)
  {
    var targetDate := new JsDate.FromValue(ref);
    var dayOfWeek := targetDate.GetDay();
    targetDate.SetDate(targetDate.date - dayOfWeek);
    var startDate := new JsDate.Copy(targetDate);
    startDate.SetHours(0, 0, 0, 0);
    var endDate := new JsDate.Copy(startDate);
    endDate.SetDate(endDate.date + 6);
    endDate.SetHours(23, 59, 59, 999);
    r := DateRange(startDate.Value(), endDate.Value());
    WeekFromSteps(ref, r.start, r.end);
  }

  /** The two dates the weekly branch builds span the Sunday-to-Saturday week of the reference. */
  lemma {:induction false} WeekFromSteps(ref: DateTime, s: DateTime, e: DateTime)
    requires ValidDateTime(ref) && ValidDateTime(s) && ValidDateTime(e)
    requires DayNumber(s) == MakeDay(ref.year, ref.month, ref.day - DayOfWeek(ref))
    requires DayNumber(e) == MakeDay(s.year, s.month, s.day + 6)
    requires IsStartOfDay(s) && IsEndOfDay(e)
    ensures IsRangeFor(Weekly, ref, DateRange(s, e))
  {
    MakeDayShift(ref.year, ref.month, ref.day, -DayOfWeek(ref));
    MakeDayShift(s.year, s.month, s.day, 6);
    StepBackToSunday(DayNumber(ref));
  }

  /** `monthly` (corrected): day 1, and day 0 of the next month, which is the last of this one. */
  method MonthlyRange(ref: DateTime) returns (r: DateRange)
    requires ValidDateTime(ref)
    ensures IsRangeFor(Monthly, ref, r)
  {
    var targetDate := new JsDate.FromValue(ref);
    var startDate := NewLocalDate(targetDate.year, targetDate.month, 1, 0, 0, 0, 0);
    var endDate := NewLocalDate(targetDate.year, targetDate.month + 1, 0, 23, 59, 59, 999);
    r := DateRange(startDate.Value(), endDate.Value());
    MonthEnd(ref.year, ref.month);
    DayNumberInjective(r.start, DateTime(ref.year, ref.month, 1, 0, 0, 0, 0));
    DayNumberInjective(r.end, DateTime(ref.year, ref.month, DaysInMonth(ref.year, ref.month), 0, 0, 0, 0));
  }

  /** `yearly` (corrected): January 1 and December 31 of the reference year. */
  method YearlyRange(ref: DateTime) returns (r: DateRange)
    requires ValidDateTime(ref)
    ensures IsRangeFor(Yearly, ref, r)
  {
    var targetDate := new JsDate.FromValue(ref);
    var startDate := NewLocalDate(targetDate.year, 0, 1, 0, 0, 0, 0);
    var endDate := NewLocalDate(targetDate.year, 11, 31, 23, 59, 59, 999);
    r := DateRange(startDate.Value(), endDate.Value());
    DayNumberInjective(r.start, DateTime(ref.year, 0, 1, 0, 0, 0, 0));
    DayNumberInjective(r.end, DateTime(ref.year, 11, 31, 0, 0, 0, 0));
  }

  /** `default`: the reference itself, its time set to 00:00:00.000 and then to 23:59:59.999. */
  method DefaultRange(ref: DateTime) returns (r: DateRange)
    requires ValidDateTime(ref)
    ensures IsRangeFor(Unrecognized, ref, r)
  {
    var targetDate := new JsDate.FromValue(ref);
    targetDate.SetHours(0, 0, 0, 0);
    var startDate := new JsDate.Copy(targetDate);
    targetDate.SetHours(23, 59, 59, 999);
    var endDate := new JsDate.Copy(targetDate);
    r := DateRange(startDate.Value(), endDate.Value());
  }

  /**
    The range switch of both GET routes, with the daily, monthly and yearly
    dates built by NewLocalDate. Every period yields exactly the range
    IsRangeFor describes.
  */
  method ResolveRange(period: Period, ref: DateTime) returns (r: DateRange)
    requires ValidDateTime(ref)
    ensures IsRangeFor(period, ref, r)
  {
    match period
    case Daily => r := DailyRange(ref);
    case Weekly => r := WeeklyRange(ref);
    case Monthly => r := MonthlyRange(ref);
    case Yearly => r := YearlyRange(ref);
    case Unrecognized => r := DefaultRange(ref);
  }

  /**
    `daily`, `monthly` and `yearly` as the routes write them, through
    `new Date(y, m, d, ...)`, which reads a year 0..99 as 1900..1999.
  */
  method LocalConstructorRange(period: Period, ref: DateTime) returns (r: DateRange)
    requires ValidDateTime(ref)
    requires period == Daily || period == Monthly || period == Yearly
    ensures ValidDateTime(r.start) && ValidDateTime(r.end)
    ensures IsStartOfDay(r.start) && IsEndOfDay(r.end)
    ensures period == Daily ==>
      DayNumber(r.start) == DayNumber(r.end) == MakeDay(MakeFullYear(ref.year), ref.month, ref.day)
    ensures period == Monthly ==>
      && DayNumber(r.start) == MakeDay(MakeFullYear(ref.year), ref.month, 1)
      && DayNumber(r.end) == MakeDay(MakeFullYear(ref.year), ref.month + 1, 0)
    ensures period == Yearly ==>
      && DayNumber(r.start) == MakeDay(MakeFullYear(ref.year), 0, 1)
      && DayNumber(r.end) == MakeDay(MakeFullYear(ref.year), 11, 31)
  {
    var targetDate := new JsDate.FromValue(ref);
    if period == Daily {
      r := LocalDayBounds(targetDate.year, targetDate.month, targetDate.date, targetDate.month, targetDate.date);
    } else if period == Monthly {
      r := LocalDayBounds(targetDate.year, targetDate.month, 1, targetDate.month + 1, 0);
    } else {
      r := LocalDayBounds(targetDate.year, 0, 1, 11, 31);
    }
  }

  /**
    `new Date(y, ms, ds, 0, 0, 0, 0)` and `new Date(y, me, de, 23, 59, 59, 999)`:
    the start of one day and the end of another, both in the year the
    constructor reads `y` as.
  */
  method LocalDayBounds(y: int, ms: int, ds: int, me: int, de: int) returns (r: DateRange)
    ensures ValidDateTime(r.start) && ValidDateTime(r.end)
    ensures IsStartOfDay(r.start) && IsEndOfDay(r.end)
    ensures DayNumber(r.start) == MakeDay(MakeFullYear(y), ms, ds)
    ensures DayNumber(r.end) == MakeDay(MakeFullYear(y), me, de)
  {
    var startDate := new JsDate.Local(y, ms, ds, 0, 0, 0, 0);
    var endDate := new JsDate.Local(y, me, de, 23, 59, 59, 999);
    r := DateRange(startDate.Value(), endDate.Value());
  }

  /**
    The range switch exactly as both routes write it. Away from the years
    0..99 it agrees with ResolveRange; inside them the daily, monthly and
    yearly ranges land in 1900..1999.
  */
  method ResolveRangeAsWritten(period: Period, ref: DateTime) returns (r: DateRange)
    requires ValidDateTime(ref)
    ensures (period == Weekly || period == Unrecognized || !(0 <= ref.year <= 99)) ==> IsRangeFor(period, ref, r)
    ensures period == Daily ==>
      DayNumber(r.start) == MakeDay(MakeFullYear(ref.year), ref.month, ref.day) && IsStartOfDay(r.start)
  {
    match period
    case Weekly => r := WeeklyRange(ref);
    case Unrecognized => r := DefaultRange(ref);
    case _ =>
      r := LocalConstructorRange(period, ref);
      if !(0 <= ref.year <= 99) {
        LocalConstructorAgrees(period, ref, r);
      }
  }

  /** Outside the years 0..99, MakeFullYear changes nothing and the constructor ranges are the intended ones. */
  lemma {:induction false} LocalConstructorAgrees(period: Period, ref: DateTime, r: DateRange)
    requires ValidDateTime(ref) && !(0 <= ref.year <= 99)
    requires period == Daily || period == Monthly || period == Yearly
    requires ValidDateTime(r.start) && ValidDateTime(r.end)
    requires IsStartOfDay(r.start) && IsEndOfDay(r.end)
    requires period == Daily ==>
      DayNumber(r.start) == DayNumber(r.end) == MakeDay(ref.year, ref.month, ref.day)
    requires period == Monthly ==>
      DayNumber(r.start) == MakeDay(ref.year, ref.month, 1) && DayNumber(r.end) == MakeDay(ref.year, ref.month + 1, 0)
    requires period == Yearly ==>
      DayNumber(r.start) == MakeDay(ref.year, 0, 1) && DayNumber(r.end) == MakeDay(ref.year, 11, 31)
    ensures IsRangeFor(period, ref, r)
  {
    if period == Daily {
      DayNumberInjective(r.start, ref);
      DayNumberInjective(r.end, ref);
    } else if period == Monthly {
      MonthEnd(ref.year, ref.month);
      DaysAre(r, DateTime(ref.year, ref.month, 1, 0, 0, 0, 0),
        DateTime(ref.year, ref.month, DaysInMonth(ref.year, ref.month), 0, 0, 0, 0));
    } else {
      DaysAre(r, DateTime(ref.year, 0, 1, 0, 0, 0, 0), DateTime(ref.year, 11, 31, 0, 0, 0, 0));
    }
  }

  /** A range whose first and last day numbers are those of `s` and `e` runs from the day of `s` to the day of `e`. */
  lemma {:induction false} DaysAre(r: DateRange, s: DateTime, e: DateTime)
    requires ValidDateTime(r.start) && ValidDateTime(r.end)
    requires ValidDate(s.year, s.month, s.day) && ValidDate(e.year, e.month, e.day)
    requires DayNumber(r.start) == DayNumber(s) && DayNumber(r.end) == DayNumber(e)
    ensures SameDay(r.start, s) && SameDay(r.end, e)
  {
    DayNumberInjective(r.start, s);
    DayNumberInjective(r.end, e);
  }

  /**
    The as-written daily range of a reference in year 50 lies in 1950 and so
    does not contain its own reference date.
  */
  method AsWrittenDailyRangeOfYear50() returns (ref: DateTime, r: DateRange)
    ensures ValidDateTime(ref) && ref.year == 50
    ensures Instant(ref) < Instant(r.start)
  {
    ref := DateTime(50, 2, 15, 12, 0, 0, 0);
    r := ResolveRangeAsWritten(Daily, ref);
    assert MakeFullYear(50) == 1950;
    DayFromYearMonotone(50, 1950);
    MakeDayInRange(50, 2, 15);
    MakeDayInRange(1950, 2, 15);
  }

  // ---------------------------------------------------------------------
  // Properties of the range
  // ---------------------------------------------------------------------

  /** The range is determined by the period and the reference: the list and chart routes agree. */
  lemma {:induction false} RangeForUnique(period: Period, ref: DateTime, r1: DateRange, r2: DateRange)
    requires ValidDateTime(ref)
    requires IsRangeFor(period, ref, r1) && IsRangeFor(period, ref, r2)
    ensures r1 == r2
  {
    if period == Weekly {
      WeekStartsAgree(ref, r1.start, r2.start);
      SameDayNumbers(r1, r2);
    }
  }

  /** Two ranges of whole days whose first and last day numbers agree are equal. */
  lemma {:induction false} SameDayNumbers(r1: DateRange, r2: DateRange)
    requires ValidDateTime(r1.start) && ValidDateTime(r1.end) && IsStartOfDay(r1.start) && IsEndOfDay(r1.end)
    requires ValidDateTime(r2.start) && ValidDateTime(r2.end) && IsStartOfDay(r2.start) && IsEndOfDay(r2.end)
    requires DayNumber(r1.start) == DayNumber(r2.start) && DayNumber(r1.end) == DayNumber(r2.end)
    ensures r1 == r2
  {
    DayNumberInjective(r1.start, r2.start);
    DayNumberInjective(r1.end, r2.end);
  }

  /** The range always contains its reference instant, so start <= end. */
  lemma {:induction false} RangeContainsReference(period: Period, ref: DateTime, r: DateRange)
    requires ValidDateTime(ref) && IsRangeFor(period, ref, r)
    ensures Instant(r.start) <= Instant(ref) <= Instant(r.end)
  {
    ReferenceDayInRange(period, ref, r);
    DaysBoundInstants(r.start, ref, r.end);
  }

  /** The reference day lies between the first and the last day of its range. */
  lemma {:induction false} ReferenceDayInRange(period: Period, ref: DateTime, r: DateRange)
    requires ValidDateTime(ref) && IsRangeFor(period, ref, r)
    ensures DayNumber(r.start) <= DayNumber(ref) <= DayNumber(r.end)
  {
    match period
    case Weekly =>
    case Monthly =>
      MakeDayInRange(ref.year, ref.month, ref.day);
      MakeDayInRange(r.start.year, r.start.month, r.start.day);
      MakeDayInRange(r.end.year, r.end.month, r.end.day);
    case Yearly =>
      DayNumberWithinYear(ref);
      MakeDayInRange(r.start.year, r.start.month, r.start.day);
      MakeDayInRange(r.end.year, r.end.month, r.end.day);
      DaysBeforeMonthNext(ref.year, 11);
      DaysBeforeMonthYear(ref.year);
    case _ =>
  }

  /** Between the start of one day and the end of another lie exactly the instants of the days in between. */
  lemma {:induction false} WholeDaysBound(s: DateTime, t: DateTime, e: DateTime)
    requires ValidDateTime(s) && ValidDateTime(t) && ValidDateTime(e)
    requires IsStartOfDay(s) && IsEndOfDay(e)
    ensures Instant(s) <= Instant(t) <= Instant(e) <==> DayNumber(s) <= DayNumber(t) <= DayNumber(e)
  {
    InstantDayOrder(s, t);
    InstantDayOrder(t, e);
    if DayNumber(s) <= DayNumber(t) <= DayNumber(e) {
      DaysBoundInstants(s, t, e);
    }
  }

  lemma {:induction false} DaysBoundInstants(s: DateTime, t: DateTime, e: DateTime)
    requires IsStartOfDay(s) && IsEndOfDay(e) && ValidTime(t.hour, t.minute, t.second, t.ms)
    requires DayNumber(s) <= DayNumber(t) <= DayNumber(e)
    ensures Instant(s) <= Instant(t) <= Instant(e)
  {
  }

  /**
    From start to end the range spans exactly SpanDays whole days minus one
    millisecond: 1 day, 7 days, the month's 28..31 days, the year's 365 or 366.
  */
  lemma {:induction false} RangeSpan(period: Period, ref: DateTime, r: DateRange)
    requires ValidDateTime(ref) && IsRangeFor(period, ref, r)
    ensures DayNumber(r.end) - DayNumber(r.start) == SpanDays(period, ref) - 1
    ensures Instant(r.end) - Instant(r.start) == SpanDays(period, ref) * MsPerDay - 1
  {
    MakeDayInRange(r.start.year, r.start.month, r.start.day);
    MakeDayInRange(r.end.year, r.end.month, r.end.day);
    if period == Yearly {
      DaysBeforeMonthNext(ref.year, 11);
      DaysBeforeMonthYear(ref.year);
    }
  }

  /** Two Sundays less than a week apart are the same day. */
  lemma {:induction false} SundaysApart(a: int, b: int)
    requires (a + 4) % 7 == 0 && (b + 4) % 7 == 0
    requires a - 6 <= b <= a + 6
    ensures a == b
  {
  }

  /** Two Sundays in the six days up to the reference day are the same day. */
  lemma {:induction false} WeekStartsAgree(ref: DateTime, s1: DateTime, s2: DateTime)
    requires DayOfWeek(s1) == 0 && DayOfWeek(s2) == 0
    requires DayNumber(ref) - 6 <= DayNumber(s1) <= DayNumber(ref)
    requires DayNumber(ref) - 6 <= DayNumber(s2) <= DayNumber(ref)
    ensures DayNumber(s1) == DayNumber(s2)
  {
    SundaysApart(DayNumber(s1), DayNumber(s2));
  }

  /** Counting on from a Sunday, the k-th day of the week is day k. */
  lemma {:induction false} DaysAfterSunday(a: int, k: int)
    requires (a + 4) % 7 == 0 && 0 <= k < 7
    ensures (a + k + 4) % 7 == k
  {
  }

  /** A weekly range lies within a single week: no Sunday after its first day. */
  lemma {:induction false} WeekHasOneSunday(ref: DateTime, r: DateRange, t: DateTime)
    requires ValidDateTime(ref) && IsRangeFor(Weekly, ref, r)
    requires DayNumber(r.start) <= DayNumber(t) <= DayNumber(r.end)
    ensures DayOfWeek(t) == DayNumber(t) - DayNumber(r.start)
  {
    DaysAfterSunday(DayNumber(r.start), DayNumber(t) - DayNumber(r.start));
  }

  /** Every date-time inside a yearly range falls in the reference year. */
  lemma {:induction false} YearlyRangeSameYear(ref: DateTime, r: DateRange, t: DateTime)
    requires ValidDateTime(ref) && IsRangeFor(Yearly, ref, r) && ValidDateTime(t)
    requires Instant(r.start) <= Instant(t) <= Instant(r.end)
    ensures t.year == ref.year
  {
    InstantDayOrder(r.start, t);
    InstantDayOrder(t, r.end);
    DayNumberWithinYear(t);
    DayNumberWithinYear(r.end);
    MakeDayInRange(ref.year, 0, 1);
    if t.year < ref.year {
      DayFromYearMonotone(t.year, ref.year);
    } else if t.year > ref.year {
      DayFromYearMonotone(ref.year, t.year);
    }
  }

  /** Scenario: 2024-03-15 is a Friday; its week runs from Sunday 10 to Saturday 16 March. */
  lemma {:induction false} WeeklyScenario(r: DateRange)
    requires IsRangeFor(Weekly, DateTime(2024, 2, 15, 10, 30, 0, 0), r)
    ensures r == DateRange(DateTime(2024, 2, 10, 0, 0, 0, 0), DateTime(2024, 2, 16, 23, 59, 59, 999))
  {
    MarchWeek();
    RangeForUnique(Weekly, DateTime(2024, 2, 15, 10, 30, 0, 0), r,
      DateRange(DateTime(2024, 2, 10, 0, 0, 0, 0), DateTime(2024, 2, 16, 23, 59, 59, 999)));
  }

  lemma {:induction false} MarchWeek()
    ensures IsRangeFor(Weekly, DateTime(2024, 2, 15, 10, 30, 0, 0),
      DateRange(DateTime(2024, 2, 10, 0, 0, 0, 0), DateTime(2024, 2, 16, 23, 59, 59, 999)))
  {
    assert DayFromYear(2024) == 19723;
    assert DaysBeforeMonth(2024, 2) == 60;
    MakeDayInRange(2024, 2, 15);
    MakeDayInRange(2024, 2, 10);
    MakeDayInRange(2024, 2, 16);
    assert DayNumber(DateTime(2024, 2, 15, 10, 30, 0, 0)) == 19797;
    assert DayNumber(DateTime(2024, 2, 10, 0, 0, 0, 0)) == 19792;
    assert DayNumber(DateTime(2024, 2, 16, 23, 59, 59, 999)) == 19798;
  }

  /** A week can straddle a year boundary: 2025-01-01 is a Wednesday. */
  lemma {:induction false} WeekAcrossYears(r: DateRange)
    requires IsRangeFor(Weekly, DateTime(2025, 0, 1, 8, 0, 0, 0), r)
    ensures r == DateRange(DateTime(2024, 11, 29, 0, 0, 0, 0), DateTime(2025, 0, 4, 23, 59, 59, 999))
  {
    NewYearWeek();
    RangeForUnique(Weekly, DateTime(2025, 0, 1, 8, 0, 0, 0), r,
      DateRange(DateTime(2024, 11, 29, 0, 0, 0, 0), DateTime(2025, 0, 4, 23, 59, 59, 999)));
  }

  lemma {:induction false} NewYearWeek()
    ensures IsRangeFor(Weekly, DateTime(2025, 0, 1, 8, 0, 0, 0),
      DateRange(DateTime(2024, 11, 29, 0, 0, 0, 0), DateTime(2025, 0, 4, 23, 59, 59, 999)))
  {
    assert DayFromYear(2024) == 19723 && DayFromYear(2025) == 20089;
    assert DaysBeforeMonth(2024, 11) == 335 && DaysBeforeMonth(2025, 0) == 0;
    MakeDayInRange(2025, 0, 1);
    MakeDayInRange(2024, 11, 29);
    MakeDayInRange(2025, 0, 4);
    assert DayNumber(DateTime(2025, 0, 1, 8, 0, 0, 0)) == 20089;
    assert DayNumber(DateTime(2024, 11, 29, 0, 0, 0, 0)) == 20086;
    assert DayNumber(DateTime(2025, 0, 4, 23, 59, 59, 999)) == 20092;
  }

  /** Scenario: in the leap year 2024 the February range ends on the 29th. */
  lemma {:induction false} LeapFebruaryScenario(r: DateRange)
    requires IsRangeFor(Monthly, DateTime(2024, 1, 15, 9, 0, 0, 0), r)
    ensures r.end == DateTime(2024, 1, 29, 23, 59, 59, 999)
  {
  }
}
