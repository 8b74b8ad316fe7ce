/**
  The part of the ECMAScript `Date` object that the range switch uses: a
  mutable local date-time whose setters normalise an out-of-range day by
  rolling over into neighbouring months and years.
*/
module JsDates {
  import opened Calendar

  /**
    ECMAScript MakeFullYear: the `Date` constructor called with two or more
    arguments reads a year from 0 to 99 as 1900 to 1999.
  */
  function MakeFullYear(y: int): (r: int)
    ensures r == y <==> !(0 <= y <= 99)
    ensures 0 <= y <= 99 ==> 1900 <= r <= 1999
    ensures r % 100 == y % 100
  {
    if 0 <= y <= 99 then 1900 + y else y
  }

  /**
    Brings (y, m, d) into range: the month carries into the year, then the
    day is moved month by month until it names a real day. The result is the
    calendar date whose day number is MakeDay(y, m, d).
  */
  method NormalizeDay(y: int, m: int, d: int) returns (ny: int, nm: int, nd: int)
    ensures ValidDate(ny, nm, nd)
    ensures MakeDay(ny, nm, nd) == MakeDay(y, m, d)
  {
    var cy, cm := y + m / 12, m % 12;
    MakeDayCarry(y, m, d, cy, cm);
    ny, nm, nd := CarryDayForward(cy, cm, d);
    ny, nm, nd := CarryDayBack(ny, nm, nd);
  }

  /** Moves a day past the end of its month into the following months. */
  method CarryDayForward(y: int, m: int, d: int) returns (ny: int, nm: int, nd: int)
    requires 0 <= m < 12
    ensures 0 <= nm < 12 && nd <= DaysInMonth(ny, nm)
    ensures MakeDay(ny, nm, nd) == MakeDay(y, m, d)
  {
    ny, nm, nd := y, m, d;
    while nd > DaysInMonth(ny, nm)
      invariant 0 <= nm < 12
      invariant MakeDay(ny, nm, nd) == MakeDay(y, m, d)
      decreases nd
    {
      var ly, lm := if nm == 11 then ny + 1 else ny, if nm == 11 then 0 else nm + 1;
      var ld := nd - DaysInMonth(ny, nm);
      NextMonth(ny, nm, nd, ly, lm, ld);
      ny, nm, nd := ly, lm, ld;
    }
  }

  /** Moves a day before the start of its month into the preceding months. */
  method CarryDayBack(y: int, m: int, d: int) returns (ny: int, nm: int, nd: int)
    requires 0 <= m < 12 && d <= DaysInMonth(y, m)
    ensures ValidDate(ny, nm, nd)
    ensures MakeDay(ny, nm, nd) == MakeDay(y, m, d)
  {
    ny, nm, nd := y, m, d;
    while nd < 1
      invariant 0 <= nm < 12
      invariant nd <= DaysInMonth(ny, nm)
      invariant MakeDay(ny, nm, nd) == MakeDay(y, m, d)
      decreases -nd
    {
      var py, pm := if nm == 0 then ny - 1 else ny, if nm == 0 then 11 else nm - 1;
      var pd := nd + DaysInMonth(py, pm);
      PreviousMonth(ny, nm, nd, py, pm, pd);
      ny, nm, nd := py, pm, pd;
    }
  }

  /** A `Date` holding a local date-time, read through its getters. */
  class JsDate {
    var year: int
    var month: int
    var date: int
    var hours: int
    var minutes: int
    var seconds: int
    var milliseconds: int

    function Value(): DateTime
      reads this
    {
      DateTime(year, month, date, hours, minutes, seconds, milliseconds)
    }

    ghost predicate Valid()
      reads this
    {
      ValidDateTime(Value())
    }

    /** `new Date(text)`, for a text that has already been read as the local date-time `t`. */
    constructor FromValue(t: DateTime)
      requires ValidDateTime(t)
      ensures Valid() && Value() == t
    {
      year, month, date := t.year, t.month, t.day;
      hours, minutes, seconds, milliseconds := t.hour, t.minute, t.second, t.ms;
    }

    /** `new Date(other)`: a copy of another date. */
    constructor Copy(other: JsDate)
      requires other.Valid()
      ensures Valid() && Value() == other.Value()
    {
      year, month, date := other.year, other.month, other.date;
      hours, minutes, seconds, milliseconds := other.hours, other.minutes, other.seconds, other.milliseconds;
    }

    /** `new Date(y, m, d, h, mi, s, ms)`: local fields, with MakeFullYear applied to the year. */
    constructor Local(y: int, m: int, d: int, h: int, mi: int, s: int, ms: int)
      requires ValidTime(h, mi, s, ms)
      ensures Valid()
      ensures DayNumber(Value()) == MakeDay(MakeFullYear(y), m, d)
      ensures hours == h && minutes == mi && seconds == s && milliseconds == ms
    {
      var ny, nm, nd := NormalizeDay(MakeFullYear(y), m, d);
      year, month, date := ny, nm, nd;
      hours, minutes, seconds, milliseconds := h, mi, s, ms;
    }

    /** `getDay()`: the day of the week, Sunday = 0. */
    function GetDay(): (r: int)
      reads this
      requires Valid()
      ensures 0 <= r < 7
    {
      DayOfWeek(Value())
    }

    /** `setDate(k)`: day k of the current month, rolling over as MakeDay does; the time is kept. */
    method SetDate(k: int)
      requires Valid()
      modifies this
      ensures Valid()
      ensures DayNumber(Value()) == MakeDay(old(year), old(month), k)
      ensures hours == old(hours) && minutes == old(minutes)
      ensures seconds == old(seconds) && milliseconds == old(milliseconds)
    {
      var ny, nm, nd := NormalizeDay(year, month, k);
      year, month, date := ny, nm, nd;
    }

    /** `setFullYear(y, m, d)`: unlike the constructor, it takes the year as given. */
    method SetFullYear(y: int, m: int, d: int)
      requires Valid()
      modifies this
      ensures Valid()
      ensures DayNumber(Value()) == MakeDay(y, m, d)
      ensures hours == old(hours) && minutes == old(minutes)
      ensures seconds == old(seconds) && milliseconds == old(milliseconds)
    {
      var ny, nm, nd := NormalizeDay(y, m, d);
      year, month, date := ny, nm, nd;
    }

    /** `setHours(h, mi, s, ms)` with in-range arguments: the date is kept. */
    method SetHours(h: int, mi: int, s: int, ms: int)
      requires Valid() && ValidTime(h, mi, s, ms)
      modifies this
      ensures Valid()
      ensures Value() == old(Value()).(hour := h, minute := mi, second := s, ms := ms)
    {
      hours, minutes, seconds, milliseconds := h, mi, s, ms;
    }
  }
}
