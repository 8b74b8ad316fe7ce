/**
  `formatDateForInput` of the period selector: the value of the
  `<input type="date">` written from a date's local fields.
*/
module PeriodSelector {
  import opened Calendar
  import opened Decimal

  /**
    `${year}-${month}-${day}`, where the month is the 1-based
    `getMonth() + 1` and month and day are left-padded with '0' to two places.
  */
  function FormatDateForInput(d: DateTime): (s: string)
    requires ValidDateTime(d)
    ensures |s| == |IntToString(d.year)| + 6
    ensures s[|s| - 6] == '-' && s[|s| - 3] == '-'
  {
    IntToString(d.year) + "-" + PadStart(NatToString(d.month + 1), 2, '0')
      + "-" + PadStart(NatToString(d.day), 2, '0')
  }

  /**
    The year, the 1-based month and the day can be read back from the text:
    the year is everything before the last six characters, the month and
    the day are the two-digit groups after each '-'.
  */
  lemma {:induction false} FormatReadBack(d: DateTime)
    requires ValidDateTime(d)
    ensures var s := FormatDateForInput(d);
      && s[..|s| - 6] == IntToString(d.year)
      && AllDigits(s[|s| - 5..|s| - 3]) && DigitsValue(s[|s| - 5..|s| - 3]) == d.month + 1
      && AllDigits(s[|s| - 2..]) && DigitsValue(s[|s| - 2..]) == d.day
  {
    var y := IntToString(d.year);
    var mm := PadStart(NatToString(d.month + 1), 2, '0');
    var dd := PadStart(NatToString(d.day), 2, '0');
    TwoDigits(d.month + 1);
    TwoDigits(d.day);
    JoinedParts(y, mm, dd);
  }

  lemma {:induction false} JoinedParts(y: string, mm: string, dd: string)
    requires |mm| == 2 && |dd| == 2
    ensures var s := y + "-" + mm + "-" + dd;
      s[..|s| - 6] == y && s[|s| - 5..|s| - 3] == mm && s[|s| - 2..] == dd
  {
    var s := y + "-" + mm + "-" + dd;
    assert s[..|s| - 6] == y;
    assert s[|s| - 5..|s| - 3] == mm;
    assert s[|s| - 2..] == dd;
  }

  /** A year of four digits gives the ten characters YYYY-MM-DD, the year in the first four. */
  lemma {:induction false} FormatFourDigitYear(d: DateTime)
    requires ValidDateTime(d) && 1000 <= d.year <= 9999
    ensures |FormatDateForInput(d)| == 10
    ensures AllDigits(FormatDateForInput(d)[..4]) && DigitsValue(FormatDateForInput(d)[..4]) == d.year
  {
    FormatReadBack(d);
    NatToStringRoundTrip(d.year);
  }

  /** Different calendar dates never share a text. */
  lemma {:induction false} FormatInjective(a: DateTime, b: DateTime)
    requires ValidDateTime(a) && ValidDateTime(b)
    requires FormatDateForInput(a) == FormatDateForInput(b)
    ensures a.year == b.year && a.month == b.month && a.day == b.day
  {
    FormatReadBack(a);
    FormatReadBack(b);
    IntToStringInjective(a.year, b.year);
  }
}
