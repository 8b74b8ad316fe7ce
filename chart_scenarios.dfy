/**
  The two worked examples of the chart aggregation: a category breakdown and
  an hourly timeline. Each lemma shows that the specification the chart
  route is proved against admits exactly one answer for its records, the
  one the lemma's ensures states.
*/
module ChartScenarios {
  import opened Calendar
  import opened Decimal
  import opened ExpenseModel
  import opened Buckets
  import opened ExpenseStore
  import opened ChartsRoute

  function At(hour: int, minute: int): DateTime {
    DateTime(2024, 2, 15, hour, minute, 0, 0)
  }

  /** Food 10 and Transport 30, on the same day. */
  function CategorySample(): seq<Expense> {
    [ Expense("Almuerzo", 10, "Food", At(12, 0), At(12, 0), At(12, 0)),
      Expense("Taxi", 30, "Transport", At(18, 0), At(18, 0), At(18, 0)) ]
  }

  /** Two records at 9 o'clock (4 and 6) and one at 14 o'clock (20). */
  function HourSample(): seq<Expense> {
    [ Expense("Café", 4, "Food", At(9, 0), At(9, 0), At(9, 0)),
      Expense("Diario", 6, "Other", At(9, 45), At(9, 45), At(9, 45)),
      Expense("Almuerzo", 20, "Food", At(14, 10), At(14, 10), At(14, 10)) ]
  }

  /** The category entries of the sample and their sums per category. */
  lemma {:induction false} CategorySampleSums()
    ensures CategoryEntries(CategorySample()) == [("Food", 10), ("Transport", 30)]
    ensures SumWhere(CategoryEntries(CategorySample()), "Food") == 10
    ensures SumWhere(CategoryEntries(CategorySample()), "Transport") == 30
  {
    var entries := CategoryEntries(CategorySample());
    assert entries == [("Food", 10), ("Transport", 30)];
    assert entries[..1] == [("Food", 10)];
  }

  /** Food 10 and Transport 30 (total 40) give Transport 30 at 75% first, then Food 10 at 25%. */
  lemma {:induction false} CategoryScenario(shares: seq<CategoryShare>)
    requires IsCategoryBreakdown(shares, CategorySample(), 40)
    ensures shares == [CategoryShare("Transport", 30, 75.0), CategoryShare("Food", 10, 25.0)]
  {
    var entries := CategoryEntries(CategorySample());
    var pairs := SharePairs(shares);
    CategorySampleSums();
    forall k | 0 <= k < |shares|
      ensures shares[k].category == "Food" || shares[k].category == "Transport"
    {
      assert pairs[k].0 in KeysOf(entries);
    }
    assert entries[0].0 in KeysOf(pairs);
    var i :| 0 <= i < |shares| && KeysOf(pairs)[i] == "Food";
    assert entries[1].0 in KeysOf(pairs);
    var j :| 0 <= j < |shares| && KeysOf(pairs)[j] == "Transport";
    OnlyTwo(shares, i, j);
    assert shares[i].amount == 10 && shares[j].amount == 30;
    assert j == 0 && i == 1;
    assert shares[0].percentage * 40.0 == 3000.0;
    assert shares[1].percentage * 40.0 == 1000.0;
  }

  /** Shares with distinct categories, each Food or Transport, are at most two. */
  lemma {:induction false} OnlyTwo(shares: seq<CategoryShare>, i: nat, j: nat)
    requires UniqueKeys(SharePairs(shares))
    requires forall k :: 0 <= k < |shares| ==> shares[k].category == "Food" || shares[k].category == "Transport"
    requires i < |shares| && shares[i].category == "Food"
    requires j < |shares| && shares[j].category == "Transport"
    ensures |shares| == 2 && i + j == 1
  {
    var pairs := SharePairs(shares);
    var k := if |shares| <= 2 then i else if i != 0 && j != 0 then 0 else if i != 1 && j != 1 then 1 else 2;
    assert pairs[k].0 == shares[k].category && pairs[i].0 == "Food" && pairs[j].0 == "Transport";
  }

  lemma {:induction false} NineAndFourteen()
    ensures NatToString(9) == "9" && NatToString(14) == "14"
  {
    assert NatToString(1) == "1";
    assert DigitChar(4) == '4';
  }

  /** The hour entries of the sample. */
  lemma {:induction false} HourSampleEntries()
    ensures AllDated(HourSample())
    ensures TimeEntries(HourSample(), Hour) == [("9", 4), ("9", 6), ("14", 20)]
  {
    var es := HourSample();
    assert ValidDateTime(At(9, 0)) && ValidDateTime(At(9, 45)) && ValidDateTime(At(14, 10));
    assert es[0].date == At(9, 0) && es[1].date == At(9, 45) && es[2].date == At(14, 10);
    assert AllDated(es);
    var entries := TimeEntries(es, Hour);
    NineAndFourteen();
    assert |entries| == 3;
    assert entries[0] == ("9", 4);
    assert entries[1] == ("9", 6);
    assert entries[2] == ("14", 20);
  }

  /** The sums per hour of the sample's entries. */
  lemma {:induction false} HourSampleSums()
    ensures SumWhere([("9", 4), ("9", 6), ("14", 20)], "9") == 10
    ensures SumWhere([("9", 4), ("9", 6), ("14", 20)], "14") == 20
  {
    var one: seq<(string, int)> := [("9", 4)];
    var two := one + [("9", 6)];
    var three := two + [("14", 20)];
    assert one[..0] == [] && two[..1] == one && three[..2] == two;
    assert SumWhere(one, "9") == 4 && SumWhere(one, "14") == 0;
    assert SumWhere(two, "9") == 10 && SumWhere(two, "14") == 0;
    assert three == [("9", 4), ("9", 6), ("14", 20)];
  }

  /** Records at 9:00 (4), 9:45 (6) and 14:10 (20) give the points "9:00" with 10 and "14:00" with 20. */
  lemma {:induction false} HourlyScenario(points: seq<TimelinePoint>)
    requires AllDated(HourSample())
    requires IsNumberedTimeline(points, HourSample(), Hour, ":00")
    ensures points == [TimelinePoint("9:00", 10, "9:00"), TimelinePoint("14:00", 20, "14:00")]
  {
    HourSampleEntries();
    var entries := TimeEntries(HourSample(), Hour);
    NumbersFromKeys(points, entries);
    var i, j := NumbersPresent(points, entries);
    AscendingNineFourteen(points, i, j);
    NineAndFourteen();
    HourSampleSums();
    TwoPoints(points, entries);
    SeqOfTwo(points, TimelinePoint("9:00", 10, "9:00"), TimelinePoint("14:00", 20, "14:00"));
  }

  lemma {:induction false} SeqOfTwo<T>(s: seq<T>, a: T, b: T)
    requires |s| == 2 && s[0] == a && s[1] == b
    ensures s == [a, b]
  {
  }

  /** Every point of the sample's timeline is numbered 9 or 14. */
  lemma {:induction false} NumbersFromKeys(points: seq<TimelinePoint>, entries: seq<(string, int)>)
    requires entries == [("9", 4), ("9", 6), ("14", 20)]
    requires forall k :: 0 <= k < |points| ==> NumberPairs(points)[k].0 in KeysOf(entries)
    ensures forall k :: 0 <= k < |points| ==> LabelNumber(points[k]) == 9 || LabelNumber(points[k]) == 14
  {
    var pairs := NumberPairs(points);
    forall k | 0 <= k < |points|
      ensures LabelNumber(points[k]) == 9 || LabelNumber(points[k]) == 14
    {
      assert pairs[k].0 in KeysOf(entries);
      ReadsBackAs(LabelNumber(points[k]), pairs[k].0);
    }
  }

  /** The sample's timeline has a point numbered 9 and one numbered 14. */
  lemma {:induction false} NumbersPresent(points: seq<TimelinePoint>, entries: seq<(string, int)>)
    returns (i: nat, j: nat)
    requires entries == [("9", 4), ("9", 6), ("14", 20)]
    requires forall k :: 0 <= k < |entries| ==> entries[k].0 in KeysOf(NumberPairs(points))
    ensures i < |points| && LabelNumber(points[i]) == 9
    ensures j < |points| && LabelNumber(points[j]) == 14
  {
    var pairs := NumberPairs(points);
    assert entries[0].0 in KeysOf(pairs);
    i :| 0 <= i < |points| && KeysOf(pairs)[i] == "9";
    ReadsBackAs(LabelNumber(points[i]), "9");
    assert entries[2].0 in KeysOf(pairs);
    j :| 0 <= j < |points| && KeysOf(pairs)[j] == "14";
    ReadsBackAs(LabelNumber(points[j]), "14");
  }

  /** The points numbered 9 and 14, with their labels, sums and formatted dates. */
  lemma {:induction false} TwoPoints(points: seq<TimelinePoint>, entries: seq<(string, int)>)
    requires NatToString(9) == "9" && NatToString(14) == "14"
    requires SumWhere(entries, "9") == 10 && SumWhere(entries, "14") == 20
    requires |points| == 2 && LabelNumber(points[0]) == 9 && LabelNumber(points[1]) == 14
    requires ShowsLabel(points) && LabelledWith(points, ":00")
    requires HoldsSums(NumberPairs(points), entries)
    ensures points[0] == TimelinePoint("9:00", 10, "9:00") && points[1] == TimelinePoint("14:00", 20, "14:00")
  {
    HourLabels();
    PointNumbered(points, entries, 0, 9, "9", "9:00", 10);
    PointNumbered(points, entries, 1, 14, "14", "14:00", 20);
  }

  lemma {:induction false} HourLabels()
    ensures "9" + ":00" == "9:00" && "14" + ":00" == "14:00"
  {
  }

  /** The point numbered `n` shows `key` plus ":00" and holds the sum filed under `key`. */
  lemma {:induction false} PointNumbered(points: seq<TimelinePoint>, entries: seq<(string, int)>,
                                         k: nat, n: nat, key: string, shown: string, amount: int)
    requires k < |points| && LabelNumber(points[k]) == n && NatToString(n) == key
    requires key + ":00" == shown && SumWhere(entries, key) == amount
    requires ShowsLabel(points) && LabelledWith(points, ":00")
    requires HoldsSums(NumberPairs(points), entries)
    ensures points[k] == TimelinePoint(shown, amount, shown)
  {
    assert NumberPairs(points)[k] == (key, points[k].amount);
  }

  /** A number whose decimal text is "9" or "14" is 9 or 14. */
  lemma {:induction false} ReadsBackAs(n: int, text: string)
    requires n >= 0 && NatToString(n) == text && (text == "9" || text == "14")
    ensures text == "9" ==> n == 9
    ensures text == "14" ==> n == 14
  {
    NineAndFourteen();
    if text == "9" {
      NatToStringInjective(n, 9);
    } else {
      NatToStringInjective(n, 14);
    }
  }

  /** Strictly ascending points numbered 9 or 14, both present, are exactly two: 9 then 14. */
  lemma {:induction false} AscendingNineFourteen(points: seq<TimelinePoint>, i: nat, j: nat)
    requires StrictlyAscending(points)
    requires forall k :: 0 <= k < |points| ==> LabelNumber(points[k]) == 9 || LabelNumber(points[k]) == 14
    requires i < |points| && LabelNumber(points[i]) == 9
    requires j < |points| && LabelNumber(points[j]) == 14
    ensures |points| == 2 && i == 0 && j == 1
  {
    var u := if |points| > 2 then 2 else 1;
    var first, second, third := LabelNumber(points[0]), LabelNumber(points[1]), LabelNumber(points[u]);
  }
}
