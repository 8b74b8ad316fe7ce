/**
  The chart endpoint: from the expenses of a period it computes the total,
  the breakdown by category and the timeline of amounts per hour, weekday,
  day of the month or month, and returns the breakdowns the `type`
  parameter asks for.
*/
module ChartsRoute {
  import opened Calendar
  import opened Decimal
  import opened ExpenseModel
  import opened PeriodRange
  import opened Buckets
  import opened ExpenseStore

  const DayNames: seq<string> := ["Dom", "Lun", "Mar", "Mié", "Jue", "Vie", "Sáb"]
  const MonthNames: seq<string> :=
    ["Ene", "Feb", "Mar", "Abr", "May", "Jun", "Jul", "Ago", "Sep", "Oct", "Nov", "Dic"]

  /** Stored records always carry a real date. */
  predicate AllDated(es: seq<Expense>) {
    forall i :: 0 <= i < |es| ==> ValidDateTime(es[i].date)
  }

  // ---------------------------------------------------------------------
  // Category breakdown

  datatype CategoryShare = CategoryShare(category: string, amount: int, percentage: real)

  /** `total > 0 ? (amount / total) * 100 : 0`, on exact reals. */
  function Percentage(amount: int, total: int): (p: real)
    ensures total > 0 ==> p * (total as real) == 100.0 * (amount as real)
    ensures total <= 0 ==> p == 0.0
  {
    if total > 0 then
      var q := amount as real / total as real;
      assert q * (total as real) == amount as real;
      q * 100.0
    else 0.0
  }

  /** The (category, amount) pairs the category `reduce` reads, in record order. */
  function CategoryEntries(es: seq<Expense>): (entries: seq<(string, int)>)
    ensures |entries| == |es|
    ensures forall i :: 0 <= i < |es| ==> entries[i] == (es[i].category, es[i].amount)
  {
    seq(|es|, i requires 0 <= i < |es| => (es[i].category, es[i].amount))
  }

  function ShareAmount(c: CategoryShare): int {
    c.amount
  }

  function NegatedAmount(c: CategoryShare): int {
    -c.amount
  }

  /** `Object.entries(categoryData).map(...)`: one share per bucket, in bucket order. */
  function SharesOf(acc: seq<(string, int)>, total: int): (shares: seq<CategoryShare>)
    ensures |shares| == |acc|
    ensures forall i :: 0 <= i < |acc| ==>
      shares[i] == CategoryShare(acc[i].0, acc[i].1, Percentage(acc[i].1, total))
  {
    seq(|acc|, i requires 0 <= i < |acc| => CategoryShare(acc[i].0, acc[i].1, Percentage(acc[i].1, total)))
  }

  /**
    The (category, amount) pair of each share. `CategoryEntries` pairs the
    input records and this pairs the output shares; both are needed so that
    the `Buckets` predicates can relate the one to the other.
  */
  function SharePairs(shares: seq<CategoryShare>): (pairs: seq<(string, int)>)
    ensures |pairs| == |shares|
    ensures forall i :: 0 <= i < |shares| ==> pairs[i] == (shares[i].category, shares[i].amount)
  {
    seq(|shares|, i requires 0 <= i < |shares| => (shares[i].category, shares[i].amount))
  }

  predicate HoldsPercentages(shares: seq<CategoryShare>, total: int) {
    forall i :: 0 <= i < |shares| ==> shares[i].percentage == Percentage(shares[i].amount, total)
  }

  predicate LargestFirst(shares: seq<CategoryShare>) {
    forall i, j :: 0 <= i < j < |shares| ==> shares[i].amount >= shares[j].amount
  }

  /** Shares with equal amounts come in the order their categories first occur in `es`. */
  predicate TiesInFirstSeenOrder(shares: seq<CategoryShare>, es: seq<Expense>) {
    forall i, j :: 0 <= i < j < |shares| && shares[i].amount == shares[j].amount ==>
      FirstIndex(KeysOf(CategoryEntries(es)), shares[i].category)
      < FirstIndex(KeysOf(CategoryEntries(es)), shares[j].category)
  }

  /**
    What the category data of `es` is: one share per distinct category
    (and a share for every category that occurs), holding the sum of that
    category's amounts and its percentage of `total`; largest amount first,
    equal amounts in the order their categories first occur in `es`; and
    the amounts add up to the total of the records.
  */
  predicate IsCategoryBreakdown(shares: seq<CategoryShare>, es: seq<Expense>, total: int) {
    && UniqueKeys(SharePairs(shares))
    && SameKeys(SharePairs(shares), CategoryEntries(es))
    && HoldsSums(SharePairs(shares), CategoryEntries(es))
    && HoldsPercentages(shares, total)
    && LargestFirst(shares)
    && TiesInFirstSeenOrder(shares, es)
    && SumBy(shares, ShareAmount) == TotalAmount(es)
  }

  /**
    The category chart: the `reduce` into an object keyed by category, one
    share per entry, then `sort((a, b) => b.amount - a.amount)`.
  */
  method CategoryBreakdown(es: seq<Expense>, total: int) returns (shares: seq<CategoryShare>)
    ensures IsCategoryBreakdown(shares, es, total)
  {
    var entries := CategoryEntries(es);
    var acc := GroupSums(entries);
    var listed := SharesOf(acc, total);
    shares := StableSortBy(listed, NegatedAmount);
    SortedSharesFacts(es, total, acc, shares);
  }

  /** Every sorted share is the share of some bucket. */
  lemma {:induction false} SharesFromBuckets(acc: seq<(string, int)>, total: int, shares: seq<CategoryShare>)
    requires shares == InsertionSort(SharesOf(acc, total), NegatedAmount)
    ensures forall i :: 0 <= i < |shares| ==>
      exists a :: 0 <= a < |acc| && shares[i] == SharesOf(acc, total)[a]
  {
    forall i | 0 <= i < |shares|
      ensures exists a :: 0 <= a < |acc| && shares[i] == SharesOf(acc, total)[a]
    {
      SortedFrom(SharesOf(acc, total), NegatedAmount, shares[i]);
    }
  }

  lemma {:induction false} SharesKeysAndSums(es: seq<Expense>, total: int, acc: seq<(string, int)>, shares: seq<CategoryShare>)
    requires Grouping(acc, CategoryEntries(es))
    requires shares == InsertionSort(SharesOf(acc, total), NegatedAmount)
    ensures SameKeys(SharePairs(shares), CategoryEntries(es))
    ensures HoldsSums(SharePairs(shares), CategoryEntries(es))
    ensures HoldsPercentages(shares, total)
  {
    SharesFromGroups(CategoryEntries(es), total, acc, shares);
    GroupsListed(CategoryEntries(es), total, acc, shares);
  }

  /** Every sorted share names a grouped key, holds its sum and its percentage. */
  lemma {:induction false} SharesFromGroups(entries: seq<(string, int)>, total: int, acc: seq<(string, int)>, shares: seq<CategoryShare>)
    requires Grouping(acc, entries)
    requires shares == InsertionSort(SharesOf(acc, total), NegatedAmount)
    ensures forall i :: 0 <= i < |shares| ==> SharePairs(shares)[i].0 in KeysOf(entries)
    ensures HoldsSums(SharePairs(shares), entries)
    ensures HoldsPercentages(shares, total)
  {
    var listed := SharesOf(acc, total);
    var pairs := SharePairs(shares);
    SharesFromBuckets(acc, total, shares);
    forall i | 0 <= i < |shares|
      ensures pairs[i].0 in KeysOf(entries)
      ensures pairs[i].1 == SumWhere(entries, pairs[i].0)
      ensures shares[i].percentage == Percentage(shares[i].amount, total)
    {
      var a :| 0 <= a < |acc| && shares[i] == listed[a];
      assert pairs[i] == acc[a];
    }
  }

  /** Every grouped key appears among the sorted shares. */
  lemma {:induction false} GroupsListed(entries: seq<(string, int)>, total: int, acc: seq<(string, int)>, shares: seq<CategoryShare>)
    requires Grouping(acc, entries)
    requires shares == InsertionSort(SharesOf(acc, total), NegatedAmount)
    ensures forall j :: 0 <= j < |entries| ==> entries[j].0 in KeysOf(SharePairs(shares))
  {
    var listed := SharesOf(acc, total);
    var pairs := SharePairs(shares);
    InsertionSortPermutes(listed, NegatedAmount);
    forall j | 0 <= j < |entries|
      ensures entries[j].0 in KeysOf(pairs)
    {
      assert entries[j].0 in KeysOf(acc);
      var a :| 0 <= a < |acc| && acc[a].0 == entries[j].0;
      assert listed[a] in multiset(shares);
      var i :| 0 <= i < |shares| && shares[i] == listed[a];
      assert KeysOf(pairs)[i] == entries[j].0;
    }
  }

  lemma {:induction false} SharesOrder(es: seq<Expense>, total: int, acc: seq<(string, int)>, shares: seq<CategoryShare>)
    requires Grouping(acc, CategoryEntries(es))
    requires shares == InsertionSort(SharesOf(acc, total), NegatedAmount)
    requires HoldsSums(SharePairs(shares), CategoryEntries(es))
    ensures UniqueKeys(SharePairs(shares))
    ensures LargestFirst(shares)
    ensures TiesInFirstSeenOrder(shares, es)
  {
    SharesTies(es, total, acc, shares);
    InsertionSortSorted(SharesOf(acc, total), NegatedAmount);
    forall i, j | 0 <= i < j < |shares|
      ensures SharePairs(shares)[i].0 != SharePairs(shares)[j].0
    {
    }
    forall i, j | 0 <= i < j < |shares|
      ensures shares[i].amount >= shares[j].amount
    {
      assert NegatedAmount(shares[i]) <= NegatedAmount(shares[j]);
    }
  }

  /** Sorting by amount keeps shares of equal amount in bucket order, which is first-seen order. */
  lemma {:induction false} SharesTies(es: seq<Expense>, total: int, acc: seq<(string, int)>, shares: seq<CategoryShare>)
    requires Grouping(acc, CategoryEntries(es))
    requires shares == InsertionSort(SharesOf(acc, total), NegatedAmount)
    ensures TiesInFirstSeenOrder(shares, es)
  {
    var keys := KeysOf(CategoryEntries(es));
    var listed := SharesOf(acc, total);
    var rank := (c: CategoryShare) => FirstIndex(keys, c.category);
    forall i, j | 0 <= i < j < |listed|
      ensures rank(listed[i]) < rank(listed[j])
    {
      assert FirstSeenOrder(acc, CategoryEntries(es));
    }
    InsertionSortKeepsRank(listed, NegatedAmount, rank);
    assert TiesByRank(shares, NegatedAmount, rank);
    forall i, j | 0 <= i < j < |shares| && shares[i].amount == shares[j].amount
      ensures FirstIndex(keys, shares[i].category) < FirstIndex(keys, shares[j].category)
    {
      assert NegatedAmount(shares[i]) == NegatedAmount(shares[j]);
      assert rank(shares[i]) < rank(shares[j]);
    }
  }

  lemma {:induction false} SortedSharesFacts(es: seq<Expense>, total: int, acc: seq<(string, int)>, shares: seq<CategoryShare>)
    requires Grouping(acc, CategoryEntries(es)) && Sum(acc) == Sum(CategoryEntries(es))
    requires shares == InsertionSort(SharesOf(acc, total), NegatedAmount)
    ensures IsCategoryBreakdown(shares, es, total)
  {
    var listed := SharesOf(acc, total);
    SharesKeysAndSums(es, total, acc, shares);
    SharesOrder(es, total, acc, shares);
    InsertionSortPermutes(listed, NegatedAmount);
    SumByPermutation(shares, listed, ShareAmount);
    SumByMatches(listed, ShareAmount, acc);
    TotalAmountIsSum(es);
    SumByMatches(es, Amount, CategoryEntries(es));
  }

  /** `SumPercent(s)`: the percentages of `s` added up. */
  function SumPercent(shares: seq<CategoryShare>): real {
    if shares == [] then 0.0 else SumPercent(shares[..|shares| - 1]) + shares[|shares| - 1].percentage
  }

  lemma {:induction false} PercentScales(shares: seq<CategoryShare>, total: int)
    requires total > 0
    requires HoldsPercentages(shares, total)
    ensures SumPercent(shares) * (total as real) == 100.0 * (SumBy(shares, ShareAmount) as real)
  {
    if shares != [] {
      PercentScales(shares[..|shares| - 1], total);
    }
  }

  /** When the total is positive, the percentages of the category data add up to 100. */
  lemma {:induction false} PercentagesSumTo100(shares: seq<CategoryShare>, es: seq<Expense>)
    requires IsCategoryBreakdown(shares, es, TotalAmount(es))
    requires TotalAmount(es) > 0
    ensures SumPercent(shares) == 100.0
  {
    PercentagesOfTotal(shares, TotalAmount(es));
  }

  lemma {:induction false} PercentagesOfTotal(shares: seq<CategoryShare>, total: int)
    requires HoldsPercentages(shares, total) && SumBy(shares, ShareAmount) == total
    requires total > 0
    ensures SumPercent(shares) == 100.0
  {
    PercentScales(shares, total);
    CancelTotal(SumPercent(shares), total, SumBy(shares, ShareAmount));
  }

  lemma {:induction false} CancelTotal(x: real, total: int, sum: int)
    requires total > 0 && sum == total
    requires x * (total as real) == 100.0 * (sum as real)
    ensures x == 100.0
  {
    var t := total as real;
    assert 100.0 * (sum as real) == 100.0 * t;
    if x > 100.0 {
      DifferenceTimesPositive(x, 100.0, t);
    } else if x < 100.0 {
      DifferenceTimesPositive(100.0, x, t);
    }
  }

  /** Scaling by a positive factor keeps a strict order. */
  lemma {:induction false} DifferenceTimesPositive(a: real, b: real, c: real)
    requires a > b && c > 0.0
    ensures a * c > b * c
  {
    assert (a - b) * c > 0.0;
    assert (a - b) * c == a * c - b * c;
  }

  // ---------------------------------------------------------------------
  // Timeline

  datatype TimelinePoint = TimelinePoint(date: string, amount: int, formattedDate: string)

  /** What a timeline bucket is keyed by: `getHours()`, `getDay()`, `getDate()` or `getMonth()`. */
  datatype TimeBucket = Hour | Weekday | DayOfMonth | Month

  /** The accumulator key of a record's date: the hour or day as a decimal string, or a day or month name. */
  function TimeKey(d: DateTime, bucket: TimeBucket): (k: string)
    requires ValidDateTime(d)
    ensures bucket == Hour ==> ParseLeadingInt(k) == d.hour
    ensures bucket == DayOfMonth ==> ParseLeadingInt(k) == d.day
    ensures bucket == Weekday ==> k in DayNames
    ensures bucket == Month ==> k in MonthNames
  {
    match bucket
    case Hour => NatToStringRoundTrip(d.hour); NatToString(d.hour)
    case Weekday => DayNames[DayOfWeek(d)]
    case DayOfMonth => NatToStringRoundTrip(d.day); NatToString(d.day)
    case Month => MonthNames[d.month]
  }

  /** The (key, amount) pairs a timeline `reduce` reads, in record order. */
  function TimeEntries(es: seq<Expense>, bucket: TimeBucket): (entries: seq<(string, int)>)
    requires AllDated(es)
    ensures |entries| == |es|
    ensures forall i :: 0 <= i < |es| ==> entries[i] == (TimeKey(es[i].date, bucket), es[i].amount)
  {
    seq(|es|, i requires 0 <= i < |es| && ValidDateTime(es[i].date) => (TimeKey(es[i].date, bucket), es[i].amount))
  }

  /** `parseInt(point.date)`, the comparator key of the numbered timelines. */
  function LabelNumber(p: TimelinePoint): int {
    ParseLeadingInt(p.date)
  }

  function PointAmount(p: TimelinePoint): int {
    p.amount
  }

  /** The (label, amount) pair of each point. */
  function PointPairs(points: seq<TimelinePoint>): (pairs: seq<(string, int)>)
    ensures |pairs| == |points|
    ensures forall i :: 0 <= i < |points| ==> pairs[i] == (points[i].date, points[i].amount)
  {
    seq(|points|, i requires 0 <= i < |points| => (points[i].date, points[i].amount))
  }

  /** The (number read back from the label, amount) pair of each point, as the bucket key it came from. */
  function NumberPairs(points: seq<TimelinePoint>): (pairs: seq<(string, int)>)
    ensures |pairs| == |points|
    ensures forall i :: 0 <= i < |points| ==>
      pairs[i] == (NatToString(ParseLeadingInt(points[i].date)), points[i].amount)
  {
    seq(|points|, i requires 0 <= i < |points| => (NatToString(ParseLeadingInt(points[i].date)), points[i].amount))
  }

  /** Every point shows its label unchanged as the formatted date. */
  predicate ShowsLabel(points: seq<TimelinePoint>) {
    forall i :: 0 <= i < |points| ==> points[i].formattedDate == points[i].date
  }

  /** Every label is a number followed by the suffix. */
  predicate LabelledWith(points: seq<TimelinePoint>, suffix: string) {
    forall i :: 0 <= i < |points| ==> points[i].date == NatToString(ParseLeadingInt(points[i].date)) + suffix
  }

  predicate StrictlyAscending(points: seq<TimelinePoint>) {
    forall i, k :: 0 <= i < k < |points| ==> LabelNumber(points[i]) < LabelNumber(points[k])
  }

  /**
    The hourly (`suffix` ":00") or day-of-month (`suffix` "") timeline of
    `es`: one point per hour or day that occurs (and a point for every one
    that does), labelled with its number and the suffix, holding the sum of
    that bucket's amounts, in strictly ascending numeric order; the amounts
    add up to the total.
  */
  predicate IsNumberedTimeline(points: seq<TimelinePoint>, es: seq<Expense>, bucket: TimeBucket, suffix: string)
    requires AllDated(es)
  {
    && ShowsLabel(points)
    && LabelledWith(points, suffix)
    && SameKeys(NumberPairs(points), TimeEntries(es, bucket))
    && HoldsSums(NumberPairs(points), TimeEntries(es, bucket))
    && StrictlyAscending(points)
    && SumBy(points, PointAmount) == TotalAmount(es)
  }

  /**
    The weekday or month timeline of `es`: one point per name that occurs,
    holding the sum of that bucket's amounts, in the order the names first
    occur in `es`; the amounts add up to the total.
  */
  predicate IsFirstSeenTimeline(points: seq<TimelinePoint>, es: seq<Expense>, bucket: TimeBucket)
    requires AllDated(es)
  {
    && ShowsLabel(points)
    && Grouping(PointPairs(points), TimeEntries(es, bucket))
    && SumBy(points, PointAmount) == TotalAmount(es)
  }

  /** The point list `Object.entries(acc).map(...)` builds from the buckets. */
  function PointsOf(acc: seq<(string, int)>, suffix: string): (points: seq<TimelinePoint>)
    ensures |points| == |acc|
    ensures forall i :: 0 <= i < |acc| ==>
      points[i] == TimelinePoint(acc[i].0 + suffix, acc[i].1, acc[i].0 + suffix)
  {
    seq(|acc|, i requires 0 <= i < |acc| => TimelinePoint(acc[i].0 + suffix, acc[i].1, acc[i].0 + suffix))
  }

  lemma {:induction false} TimeEntriesTotal(es: seq<Expense>, bucket: TimeBucket)
    requires AllDated(es)
    ensures Sum(TimeEntries(es, bucket)) == TotalAmount(es)
  {
    TotalAmountIsSum(es);
    SumByMatches(es, Amount, TimeEntries(es, bucket));
  }

  /**
    The daily (by hour) and monthly (by day) timelines: the `reduce` keyed
    by the number, the points labelled `${key}` plus the suffix, then
    `sort((a, b) => parseInt(a.date) - parseInt(b.date))`.
  */
  method NumberedTimeline(es: seq<Expense>, bucket: TimeBucket, suffix: string) returns (points: seq<TimelinePoint>)
    requires AllDated(es)
    requires (bucket == Hour && suffix == ":00") || (bucket == DayOfMonth && suffix == "")
    ensures IsNumberedTimeline(points, es, bucket, suffix)
  {
    var entries := TimeEntries(es, bucket);
    var acc := GroupSums(entries);
    var listed := PointsOf(acc, suffix);
    points := StableSortBy(listed, LabelNumber);
    TimeEntriesTotal(es, bucket);
    SortedPointsFacts(es, bucket, suffix, acc, points);
  }

  /**
    The buckets of a numbered timeline are keyed by decimal numbers, so each
    label reads back as its bucket's key and distinct buckets get distinct
    numbers.
  */
  lemma {:induction false} ListedNumbers(es: seq<Expense>, bucket: TimeBucket, suffix: string, acc: seq<(string, int)>)
    requires AllDated(es)
    requires (bucket == Hour && suffix == ":00") || (bucket == DayOfMonth && suffix == "")
    requires SameKeys(acc, TimeEntries(es, bucket)) && UniqueKeys(acc)
    ensures LabelledWith(PointsOf(acc, suffix), suffix)
    ensures NumberPairs(PointsOf(acc, suffix)) == acc
    ensures forall a, b :: 0 <= a < b < |acc| ==>
      LabelNumber(PointsOf(acc, suffix)[a]) != LabelNumber(PointsOf(acc, suffix)[b])
  {
    var entries := TimeEntries(es, bucket);
    var listed := PointsOf(acc, suffix);
    forall a | 0 <= a < |acc|
      ensures acc[a].0 == NatToString(LabelNumber(listed[a]))
    {
      assert acc[a].0 in KeysOf(entries);
      var j :| 0 <= j < |es| && entries[j].0 == acc[a].0;
      var n: nat := if bucket == Hour then es[j].date.hour else es[j].date.day;
      assert acc[a].0 == NatToString(n);
      ParseLeadingIntOfLabel(n, suffix);
    }
    assert NumberPairs(listed) == acc;
  }

  /** Every sorted point is the point of some bucket. */
  lemma {:induction false} PointsFromBuckets(acc: seq<(string, int)>, suffix: string, points: seq<TimelinePoint>)
    requires points == InsertionSort(PointsOf(acc, suffix), LabelNumber)
    ensures forall i :: 0 <= i < |points| ==>
      exists a :: 0 <= a < |acc| && points[i] == PointsOf(acc, suffix)[a]
  {
    forall i | 0 <= i < |points|
      ensures exists a :: 0 <= a < |acc| && points[i] == PointsOf(acc, suffix)[a]
    {
      SortedFrom(PointsOf(acc, suffix), LabelNumber, points[i]);
    }
  }

  /** Each sorted point carries its bucket's label and sum. */
  lemma {:induction false} PointsHoldSums(es: seq<Expense>, bucket: TimeBucket, suffix: string,
                       acc: seq<(string, int)>, points: seq<TimelinePoint>)
    requires AllDated(es)
    requires (bucket == Hour && suffix == ":00") || (bucket == DayOfMonth && suffix == "")
    requires Grouping(acc, TimeEntries(es, bucket))
    requires points == InsertionSort(PointsOf(acc, suffix), LabelNumber)
    ensures ShowsLabel(points) && LabelledWith(points, suffix)
    ensures forall i :: 0 <= i < |points| ==> NumberPairs(points)[i].0 in KeysOf(TimeEntries(es, bucket))
    ensures HoldsSums(NumberPairs(points), TimeEntries(es, bucket))
  {
    var entries := TimeEntries(es, bucket);
    var listed := PointsOf(acc, suffix);
    var pairs := NumberPairs(points);
    ListedNumbers(es, bucket, suffix, acc);
    PointsFromBuckets(acc, suffix, points);
    forall i | 0 <= i < |points|
      ensures points[i].formattedDate == points[i].date
      ensures points[i].date == NatToString(ParseLeadingInt(points[i].date)) + suffix
      ensures pairs[i].0 in KeysOf(entries)
      ensures pairs[i].1 == SumWhere(entries, pairs[i].0)
    {
      var a :| 0 <= a < |acc| && points[i] == listed[a];
      assert pairs[i] == NumberPairs(listed)[a];
    }
  }

  /** Every bucket key occurs among the sorted points. */
  lemma {:induction false} PointsCoverKeys(entries: seq<(string, int)>, suffix: string,
                        acc: seq<(string, int)>, points: seq<TimelinePoint>)
    requires SameKeys(acc, entries)
    requires NumberPairs(PointsOf(acc, suffix)) == acc
    requires points == InsertionSort(PointsOf(acc, suffix), LabelNumber)
    ensures forall j :: 0 <= j < |entries| ==> entries[j].0 in KeysOf(NumberPairs(points))
  {
    var listed := PointsOf(acc, suffix);
    var pairs := NumberPairs(points);
    InsertionSortPermutes(listed, LabelNumber);
    forall j | 0 <= j < |entries|
      ensures entries[j].0 in KeysOf(pairs)
    {
      assert entries[j].0 in KeysOf(acc);
      var a :| 0 <= a < |acc| && acc[a].0 == entries[j].0;
      assert listed[a] in multiset(points);
      var i :| 0 <= i < |points| && points[i] == listed[a];
      assert KeysOf(pairs)[i] == NumberPairs(listed)[a].0;
    }
  }

  lemma {:induction false} SortedPointsFacts(es: seq<Expense>, bucket: TimeBucket, suffix: string,
                          acc: seq<(string, int)>, points: seq<TimelinePoint>)
    requires AllDated(es)
    requires (bucket == Hour && suffix == ":00") || (bucket == DayOfMonth && suffix == "")
    requires Grouping(acc, TimeEntries(es, bucket)) && Sum(acc) == TotalAmount(es)
    requires points == InsertionSort(PointsOf(acc, suffix), LabelNumber)
    ensures IsNumberedTimeline(points, es, bucket, suffix)
  {
    var listed := PointsOf(acc, suffix);
    ListedNumbers(es, bucket, suffix, acc);
    PointsHoldSums(es, bucket, suffix, acc, points);
    PointsCoverKeys(TimeEntries(es, bucket), suffix, acc, points);
    InsertionSortStrict(listed, LabelNumber);
    PointsTotal(acc, suffix, points);
  }

  lemma {:induction false} PointsTotal(acc: seq<(string, int)>, suffix: string, points: seq<TimelinePoint>)
    requires points == InsertionSort(PointsOf(acc, suffix), LabelNumber)
    ensures SumBy(points, PointAmount) == Sum(acc)
  {
    var listed := PointsOf(acc, suffix);
    InsertionSortPermutes(listed, LabelNumber);
    SumByPermutation(points, listed, PointAmount);
    SumByMatches(listed, PointAmount, acc);
  }

  /** An hourly timeline is labelled with hours of the day, a day-of-month timeline with days 1 to 31. */
  lemma {:induction false} NumberedTimelineBounds(points: seq<TimelinePoint>, es: seq<Expense>, bucket: TimeBucket, suffix: string)
    requires AllDated(es) && (bucket == Hour || bucket == DayOfMonth)
    requires IsNumberedTimeline(points, es, bucket, suffix)
    ensures forall i :: 0 <= i < |points| ==>
      if bucket == Hour then LabelNumber(points[i]) < 24 else 1 <= LabelNumber(points[i]) <= 31
  {
    var entries := TimeEntries(es, bucket);
    forall i | 0 <= i < |points|
      ensures if bucket == Hour then LabelNumber(points[i]) < 24 else 1 <= LabelNumber(points[i]) <= 31
    {
      assert NumberPairs(points)[i].0 in KeysOf(entries);
      var j :| 0 <= j < |es| && entries[j].0 == NumberPairs(points)[i].0;
      var n: nat := if bucket == Hour then es[j].date.hour else es[j].date.day;
      assert entries[j].0 == NatToString(n);
      NatToStringInjective(n, LabelNumber(points[i]));
    }
  }

  /** The weekday and month timelines: the `reduce` keyed by the name, the points in bucket order, unsorted. */
  method FirstSeenTimeline(es: seq<Expense>, bucket: TimeBucket) returns (points: seq<TimelinePoint>)
    requires AllDated(es)
    requires bucket == Weekday || bucket == Month
    ensures IsFirstSeenTimeline(points, es, bucket)
  {
    var entries := TimeEntries(es, bucket);
    var acc := GroupSums(entries);
    points := PointsOf(acc, "");
    UnsuffixedPoints(acc);
    TimeEntriesTotal(es, bucket);
    SumByMatches(points, PointAmount, acc);
  }

  lemma {:induction false} UnsuffixedPoints(acc: seq<(string, int)>)
    ensures PointPairs(PointsOf(acc, "")) == acc
    ensures forall i :: 0 <= i < |acc| ==>
      PointsOf(acc, "")[i].date == acc[i].0 && PointsOf(acc, "")[i].formattedDate == acc[i].0
  {
    forall i | 0 <= i < |acc|
      ensures acc[i].0 + "" == acc[i].0
    {
    }
    assert PointPairs(PointsOf(acc, "")) == acc;
  }

  /** Every point of a weekday or month timeline is named from its table. */
  lemma {:induction false} FirstSeenNames(points: seq<TimelinePoint>, es: seq<Expense>, bucket: TimeBucket)
    requires AllDated(es) && (bucket == Weekday || bucket == Month)
    requires IsFirstSeenTimeline(points, es, bucket)
    ensures forall i :: 0 <= i < |points| ==>
      points[i].date in (if bucket == Weekday then DayNames else MonthNames)
  {
    var entries := TimeEntries(es, bucket);
    forall i | 0 <= i < |points|
      ensures points[i].date in (if bucket == Weekday then DayNames else MonthNames)
    {
      assert PointPairs(points)[i].0 in KeysOf(entries);
      var j :| 0 <= j < |es| && entries[j].0 == points[i].date;
    }
  }

  /** The record that opened the bucket of point `i`: the first one whose key is the point's label. */
  lemma {:induction false} FirstSeenRecord(points: seq<TimelinePoint>, es: seq<Expense>, bucket: TimeBucket, i: nat)
    returns (f: nat)
    requires AllDated(es) && IsFirstSeenTimeline(points, es, bucket) && i < |points|
    ensures f == FirstIndex(KeysOf(TimeEntries(es, bucket)), points[i].date)
    ensures f < |es| && TimeKey(es[f].date, bucket) == points[i].date
  {
    var entries := TimeEntries(es, bucket);
    assert PointPairs(points)[i].0 in KeysOf(entries);
    f := FirstIndex(KeysOf(entries), points[i].date);
  }

  /** The records that opened the buckets of points `i < j`: the first comes first, their keys differ. */
  lemma {:induction false} FirstSeenPair(points: seq<TimelinePoint>, es: seq<Expense>, bucket: TimeBucket, i: nat, j: nat)
    returns (fi: nat, fj: nat)
    requires AllDated(es) && IsFirstSeenTimeline(points, es, bucket) && i < j < |points|
    ensures fi < fj < |es|
    ensures TimeKey(es[fi].date, bucket) == points[i].date && TimeKey(es[fj].date, bucket) == points[j].date
    ensures points[i].date != points[j].date
  {
    fi := FirstSeenRecord(points, es, bucket, i);
    fj := FirstSeenRecord(points, es, bucket, j);
    assert FirstSeenOrder(PointPairs(points), TimeEntries(es, bucket));
    assert UniqueKeys(PointPairs(points));
    assert PointPairs(points)[i].0 != PointPairs(points)[j].0;
  }

  lemma {:induction false} DayNamesDistinct()
    ensures forall i, j :: 0 <= i < j < |DayNames| ==> DayNames[i] != DayNames[j]
  {
  }

  lemma {:induction false} MonthNamesDistinct()
    ensures forall i, j :: 0 <= i < j < |MonthNames| ==> MonthNames[i] != MonthNames[j]
  {
  }

  /** Inside a weekly range, a later record falls on a later or the same weekday. */
  lemma {:induction false} WeekdayFollowsInstant(ref: DateTime, r: DateRange, a: DateTime, b: DateTime)
    requires ValidDateTime(ref) && IsRangeFor(Weekly, ref, r)
    requires ValidDateTime(a) && ValidDateTime(b)
    requires Instant(r.start) <= Instant(a) <= Instant(b) <= Instant(r.end)
    ensures DayOfWeek(a) <= DayOfWeek(b)
  {
    InstantDayOrder(r.start, a);
    InstantDayOrder(a, b);
    InstantDayOrder(b, r.end);
    WeekHasOneSunday(ref, r, a);
    WeekHasOneSunday(ref, r, b);
  }

  /**
    Within one week, on records taken newest first, the weekday timeline
    runs from the latest day of the week back to the earliest.
  */
  lemma {:induction false} WeekdayTimelineNewestFirst(points: seq<TimelinePoint>, es: seq<Expense>, ref: DateTime, r: DateRange)
    requires ValidDateTime(ref) && IsRangeFor(Weekly, ref, r)
    requires AllDated(es) && ByDateDescending(es)
    requires forall k :: 0 <= k < |es| ==> InRange(es[k], r)
    requires IsFirstSeenTimeline(points, es, Weekday)
    ensures forall i, j :: 0 <= i < j < |points| ==>
      FirstIndex(DayNames, points[i].date) > FirstIndex(DayNames, points[j].date)
  {
    forall i, j | 0 <= i < j < |points|
      ensures FirstIndex(DayNames, points[i].date) > FirstIndex(DayNames, points[j].date)
    {
      var fi, fj := FirstSeenPair(points, es, Weekday, i, j);
      assert Instant(es[fi].date) >= Instant(es[fj].date);
      assert InRange(es[fi], r) && InRange(es[fj], r);
      assert ValidDateTime(es[fi].date) && ValidDateTime(es[fj].date);
      WeekdayFollowsInstant(ref, r, es[fj].date, es[fi].date);
      LaterWeekdayFirst(es[fi].date, es[fj].date, points[i].date, points[j].date);
    }
  }

  /** Two records with distinct weekday names, the first on a weekday no earlier: its name comes later in the table. */
  lemma {:induction false} LaterWeekdayFirst(a: DateTime, b: DateTime, ka: string, kb: string)
    requires ValidDateTime(a) && ValidDateTime(b) && DayOfWeek(b) <= DayOfWeek(a)
    requires TimeKey(a, Weekday) == ka && TimeKey(b, Weekday) == kb && ka != kb
    ensures FirstIndex(DayNames, ka) > FirstIndex(DayNames, kb)
  {
    assert ka == DayNames[DayOfWeek(a)] && kb == DayNames[DayOfWeek(b)];
    DayNamesDistinct();
    LaterIndex(DayNames, DayOfWeek(a), DayOfWeek(b));
  }

  /**
    Within one year, on records taken newest first, the month timeline runs
    from the latest month back to the earliest.
  */
  lemma {:induction false} MonthTimelineNewestFirst(points: seq<TimelinePoint>, es: seq<Expense>, ref: DateTime, r: DateRange)
    requires ValidDateTime(ref) && IsRangeFor(Yearly, ref, r)
    requires AllDated(es) && ByDateDescending(es)
    requires forall k :: 0 <= k < |es| ==> InRange(es[k], r)
    requires IsFirstSeenTimeline(points, es, Month)
    ensures forall i, j :: 0 <= i < j < |points| ==>
      FirstIndex(MonthNames, points[i].date) > FirstIndex(MonthNames, points[j].date)
  {
    forall i, j | 0 <= i < j < |points|
      ensures FirstIndex(MonthNames, points[i].date) > FirstIndex(MonthNames, points[j].date)
    {
      var fi, fj := FirstSeenPair(points, es, Month, i, j);
      assert Instant(es[fi].date) >= Instant(es[fj].date);
      assert InRange(es[fi], r) && InRange(es[fj], r);
      assert ValidDateTime(es[fi].date) && ValidDateTime(es[fj].date);
      MonthFollowsInRange(ref, r, es[fj].date, es[fi].date);
      LaterMonthFirst(es[fi].date, es[fj].date, points[i].date, points[j].date);
    }
  }

  /** Inside a yearly range, a later record falls in a later or the same month. */
  lemma {:induction false} MonthFollowsInRange(ref: DateTime, r: DateRange, a: DateTime, b: DateTime)
    requires ValidDateTime(ref) && IsRangeFor(Yearly, ref, r)
    requires ValidDateTime(a) && ValidDateTime(b)
    requires Instant(r.start) <= Instant(a) <= Instant(b) <= Instant(r.end)
    ensures a.month <= b.month
  {
    YearlyRangeSameYear(ref, r, a);
    YearlyRangeSameYear(ref, r, b);
    MonthFollowsInstant(a, b);
  }

  /** Two records with distinct month names, the first in a month no earlier: its name comes later in the table. */
  lemma {:induction false} LaterMonthFirst(a: DateTime, b: DateTime, ka: string, kb: string)
    requires ValidDateTime(a) && ValidDateTime(b) && b.month <= a.month
    requires TimeKey(a, Month) == ka && TimeKey(b, Month) == kb && ka != kb
    ensures FirstIndex(MonthNames, ka) > FirstIndex(MonthNames, kb)
  {
    assert ka == MonthNames[a.month] && kb == MonthNames[b.month];
    MonthNamesDistinct();
    LaterIndex(MonthNames, a.month, b.month);
  }

  /** What the timeline for `period` is; an unrecognised period has none. */
  predicate IsTimeline(points: seq<TimelinePoint>, es: seq<Expense>, period: Period)
    requires AllDated(es)
  {
    match period
    case Daily => IsNumberedTimeline(points, es, Hour, ":00")
    case Weekly => IsFirstSeenTimeline(points, es, Weekday)
    case Monthly => IsNumberedTimeline(points, es, DayOfMonth, "")
    case Yearly => IsFirstSeenTimeline(points, es, Month)
    case Unrecognized => points == []
  }

  /** The timeline chart: the branch chosen by the period string, and no points for any other period. */
  method Timeline(es: seq<Expense>, period: string) returns (points: seq<TimelinePoint>)
    requires AllDated(es)
    ensures IsTimeline(points, es, ParsePeriod(period))
  {
    if period == "daily" {
      points := NumberedTimeline(es, Hour, ":00");
    } else if period == "weekly" {
      points := FirstSeenTimeline(es, Weekday);
    } else if period == "monthly" {
      points := NumberedTimeline(es, DayOfMonth, "");
    } else if period == "yearly" {
      points := FirstSeenTimeline(es, Month);
    } else {
      points := [];
    }
  }

  // ---------------------------------------------------------------------
  // The response

  datatype Charts = Charts(
    total: int,
    categoryData: Option<seq<CategoryShare>>,
    timelineData: Option<seq<TimelinePoint>>)

  /**
    What the chart data of `es` is: the total of the amounts, the category
    data exactly when `chartType` is "category" or "all", the timeline
    exactly when it is "timeline" or "all".
  */
  predicate Summarises(c: Charts, es: seq<Expense>, period: Period, chartType: string)
    requires AllDated(es)
  {
    && c.total == TotalAmount(es)
    && (c.categoryData.Some? <==> chartType == "category" || chartType == "all")
    && (c.timelineData.Some? <==> chartType == "timeline" || chartType == "all")
    && (c.categoryData.Some? ==> IsCategoryBreakdown(c.categoryData.value, es, c.total))
    && (c.timelineData.Some? ==> IsTimeline(c.timelineData.value, es, period))
  }

  /** The charts response: the total, then the charts the chart type asks for, over the records the query returned. */
  method Aggregate(es: seq<Expense>, period: string, chartType: string) returns (c: Charts)
    requires AllDated(es)
    ensures Summarises(c, es, ParsePeriod(period), chartType)
  {
    var total := TotalAmount(es);
    var categoryData := None;
    var timelineData := None;
    if chartType == "category" || chartType == "all" {
      var shares := CategoryBreakdown(es, total);
      categoryData := Some(shares);
    }
    if chartType == "timeline" || chartType == "all" {
      var points := Timeline(es, period);
      timelineData := Some(points);
    }
    c := Charts(total, categoryData, timelineData);
  }

  /** `searchParams.get('type') || 'all'`. */
  function ChartType(param: Option<string>): (t: string)
    ensures param.None? || param.value == "" ==> t == "all"
    ensures param.Some? && param.value != "" ==> t == param.value
  {
    if param.None? || param.value == "" then "all" else param.value
  }

  datatype ChartsResponse = ChartsResponse(period: string, dateRange: DateRange, charts: Charts)

  /**
    GET: the range of the requested period, and the chart data of the
    records inside it, taken newest first. The database fixes no order among
    records with the same date, so the promise is about some date-descending
    ordering of the matching records.
  */
  method GetCharts(db: seq<Expense>, period: Option<string>, date: Option<DateTime>,
                   chartType: Option<string>, now: DateTime) returns (resp: ChartsResponse)
    requires AllDated(db) && ValidDateTime(now)
    requires date.Some? ==> ValidDateTime(date.value)
    ensures var q := ReadQuery(period, date, now);
      && resp.period == q.period
      && IsRangeFor(ParsePeriod(q.period), q.ref, resp.dateRange)
    ensures resp.charts.total == TotalAmount(MatchesRange(db, resp.dateRange))
    ensures exists found ::
      && multiset(found) == multiset(MatchesRange(db, resp.dateRange))
      && ByDateDescending(found) && AllDated(found)
      && Summarises(resp.charts, found, ParsePeriod(resp.period), ChartType(chartType))
  {
    var q := ReadQuery(period, date, now);
    var range := ResolveRange(ParsePeriod(q.period), q.ref);
    var found := FindInRange(db, range);
    assert AllDated(found) by {
      forall i | 0 <= i < |found|
        ensures ValidDateTime(found[i].date)
      {
        assert found[i] in found;
      }
    }
    var charts := Aggregate(found, q.period, ChartType(chartType));
    TotalAmountPermutation(found, MatchesRange(db, range));
    resp := ChartsResponse(q.period, range, charts);
  }
}
