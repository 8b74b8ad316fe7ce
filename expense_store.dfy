/**
  What both GET routes share around the range switch: reading the `period`
  and `date` query parameters, the inclusive date query against the stored
  expenses with its date-descending sort, and the total of the amounts.
  The database is a sequence of records.
*/
module ExpenseStore {
  import opened Calendar
  import opened ExpenseModel
  import opened PeriodRange
  import opened Buckets

  datatype Option<T> = None | Some(value: T)

  /** The query after defaults: the period label and the reference date-time. */
  datatype Query = Query(period: string, ref: DateTime)

  /**
    `searchParams.get('period') || 'daily'` and `searchParams.get('date') ||
    now`: an absent or empty period is "daily", an absent date is the
    current time. The date arrives already read as a local date-time.
  */
  function ReadQuery(period: Option<string>, date: Option<DateTime>, now: DateTime): (q: Query)
    ensures period.None? || period.value == "" ==> q.period == "daily"
    ensures period.Some? && period.value != "" ==> q.period == period.value
    ensures date.None? ==> q.ref == now
    ensures date.Some? ==> q.ref == date.value
    ensures q.period != ""
  {
    var p := if period.None? || period.value == "" then "daily" else period.value;
    var d := if date.None? then now else date.value;
    Query(p, d)
  }

  /**
    `{ date: { $gte: start, $lte: end } }`: both ends belong to the range.
    For a range of whole days, that selects exactly the records dated on
    one of its days, the last day included to its final millisecond.
  */
  predicate InRange(e: Expense, r: DateRange): (ok: bool)
    ensures (&& ValidDateTime(e.date) && ValidDateTime(r.start) && ValidDateTime(r.end)
             && IsStartOfDay(r.start) && IsEndOfDay(r.end)) ==>
      (ok <==> DayNumber(r.start) <= DayNumber(e.date) <= DayNumber(r.end))
  {
    var ok := Instant(r.start) <= Instant(e.date) <= Instant(r.end);
    if ValidDateTime(e.date) && ValidDateTime(r.start) && ValidDateTime(r.end)
      && IsStartOfDay(r.start) && IsEndOfDay(r.end)
    then
      WholeDaysBound(r.start, e.date, r.end);
      ok
    else
      ok
  }

  /** The records of `db` inside the range, in database order. */
  function MatchesRange(db: seq<Expense>, r: DateRange): (m: seq<Expense>)
    ensures |m| <= |db|
    ensures forall e :: e in m <==> e in db && InRange(e, r)
  {
    if db == [] then []
    else MatchesRange(db[..|db| - 1], r) + (if InRange(db[|db| - 1], r) then [db[|db| - 1]] else [])
  }

  predicate ByDateDescending(s: seq<Expense>) {
    forall i, j :: 0 <= i < j < |s| ==> Instant(s[i].date) >= Instant(s[j].date)
  }

  function Amount(e: Expense): int {
    e.amount
  }

  /**
    `expenses.reduce((sum, expense) => sum + expense.amount, 0)`, folded in
    the order the records come. `TotalAmountIsSum` shows it equals `SumBy`
    over the amounts, which carries the permutation lemma.
  */
  function TotalAmount(es: seq<Expense>): (t: int)
    ensures es == [] ==> t == 0
    ensures (forall i :: 0 <= i < |es| ==> es[i].amount >= 0) ==> t >= 0
  {
    if es == [] then 0 else TotalAmount(es[..|es| - 1]) + es[|es| - 1].amount
  }

  lemma {:induction false} TotalAmountIsSum(es: seq<Expense>)
    ensures TotalAmount(es) == SumBy(es, Amount)
  {
    if es != [] {
      TotalAmountIsSum(es[..|es| - 1]);
    }
  }

  /** The total does not depend on the order the records come in. */
  lemma {:induction false} TotalAmountPermutation(a: seq<Expense>, b: seq<Expense>)
    requires multiset(a) == multiset(b)
    ensures TotalAmount(a) == TotalAmount(b)
  {
    TotalAmountIsSum(a);
    TotalAmountIsSum(b);
    SumByPermutation(a, b, Amount);
  }

  function NegatedInstant(e: Expense): int {
    -Instant(e.date)
  }

  /**
    `Expense.find({ date: { $gte, $lte } }).sort({ date: -1 })`: exactly the
    records inside the range, newest first. The database leaves the order of
    records with the same date open, so only a date-descending permutation
    of the matches is promised.
  */
  method FindInRange(db: seq<Expense>, r: DateRange) returns (found: seq<Expense>)
    ensures multiset(found) == multiset(MatchesRange(db, r))
    ensures forall e :: e in found <==> e in db && InRange(e, r)
    ensures ByDateDescending(found)
  {
    var matched := [];
    for n := 0 to |db|
      invariant matched == MatchesRange(db[..n], r)
    {
      assert db[..n + 1][..n] == db[..n];
      if InRange(db[n], r) {
        matched := matched + [db[n]];
      }
    }
    assert db[..|db|] == db;
    found := StableSortBy(matched, NegatedInstant);
    forall e | e in found
      ensures e in matched
    {
      assert e in multiset(found);
    }
    forall e | e in matched
      ensures e in found
    {
      assert e in multiset(matched);
    }
  }
}
