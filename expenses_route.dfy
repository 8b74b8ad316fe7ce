/**
  The expense list endpoint: GET lists the expenses of a period with their
  total; POST checks the required fields and stores a new expense.
*/
module ExpensesRoute {
  import opened Calendar
  import opened ExpenseModel
  import opened PeriodRange
  import opened ExpenseStore

  datatype ExpensesResponse = ExpensesResponse(
    expenses: seq<Expense>,
    total: int,
    period: string,
    dateRange: DateRange)

  /**
    GET: the records of the period around the reference date, newest first,
    their total, the period label and the range used.
  */
  method GetExpenses(db: seq<Expense>, period: Option<string>, date: Option<DateTime>, now: DateTime)
    returns (resp: ExpensesResponse)
    requires ValidDateTime(now)
    requires date.Some? ==> ValidDateTime(date.value)
    ensures var q := ReadQuery(period, date, now);
      && resp.period == q.period
      && IsRangeFor(ParsePeriod(q.period), q.ref, resp.dateRange)
    ensures forall e :: e in resp.expenses <==> e in db && InRange(e, resp.dateRange)
    ensures multiset(resp.expenses) == multiset(MatchesRange(db, resp.dateRange))
    ensures ByDateDescending(resp.expenses)
    ensures resp.total == TotalAmount(resp.expenses)
    ensures resp.total == TotalAmount(MatchesRange(db, resp.dateRange))
  {
    var q := ReadQuery(period, date, now);
    var range := ResolveRange(ParsePeriod(q.period), q.ref);
    var expenses := FindInRange(db, range);
    var total := TotalAmount(expenses);
    TotalAmountPermutation(expenses, MatchesRange(db, range));
    resp := ExpensesResponse(expenses, total, q.period, range);
  }

  /** The fields POST reads from the JSON body; a missing field is None. */
  datatype PostBody = PostBody(
    description: Option<string>,
    amount: Option<int>,
    category: Option<string>,
    date: Option<DateTime>)

  datatype PostOutcome = BadRequest | ServerError | Created(expense: Expense)

  function Status(o: PostOutcome): (code: int)
    ensures o.BadRequest? <==> code == 400
    ensures o.ServerError? <==> code == 500
    ensures o.Created? <==> code == 201
  {
    match o
    case BadRequest => 400
    case ServerError => 500
    case Created(_) => 201
  }

  /** JavaScript truthiness of a string field: present and not empty. */
  predicate TruthyText(v: Option<string>) {
    v.Some? && v.value != ""
  }

  /** JavaScript truthiness of a number field: present and not 0. */
  predicate TruthyAmount(v: Option<int>) {
    v.Some? && v.value != 0
  }

  /** `date ? new Date(date) : new Date()`: the given date, or else the current time. */
  function DateOrNow(date: Option<DateTime>, now: DateTime): (d: DateTime)
    ensures date.Some? ==> d == date.value
    ensures date.None? ==> d == now
  {
    if date.Some? then date.value else now
  }

  /** The document `new Expense({...})` builds from a body whose required fields are present. */
  function Built(body: PostBody, now: DateTime): (e: Expense)
    requires body.description.Some? && body.amount.Some? && body.category.Some?
    ensures e.description == Trim(body.description.value) && e.category == Trim(body.category.value)
    ensures e.amount == body.amount.value && e.date == DateOrNow(body.date, now)
    ensures e.createdAt == now && e.updatedAt == now
  {
    Cast(body.description.value, body.amount.value, body.category.value, DateOrNow(body.date, now), now)
  }

  /**
    POST: 400 when description, amount or category is falsy; otherwise the
    record is built with the given date or `now`, and saving it either
    stores it (201) or fails schema validation, which the handler reports
    as 500.
  */
  function Post(body: PostBody, now: DateTime): (o: PostOutcome)
    ensures o.BadRequest? <==>
      !TruthyText(body.description) || !TruthyAmount(body.amount) || !TruthyText(body.category)
    ensures !o.BadRequest? ==> (o.Created? <==> SatisfiesSchema(Built(body, now)))
    ensures o.Created? ==> o.expense == Built(body, now) && SatisfiesSchema(o.expense)
  {
    if !TruthyText(body.description) || !TruthyAmount(body.amount) || !TruthyText(body.category) then
      BadRequest
    else
      var e := Built(body, now);
      if SatisfiesSchema(e) then Created(e) else ServerError
  }

  /**
    An amount of 0 is refused with 400 before the schema is consulted, even
    though the schema itself accepts a record whose amount is 0.
  */
  lemma {:induction false} ZeroAmountRefused(description: string, category: string, date: Option<DateTime>, now: DateTime)
    requires ValidText(description, MaxDescriptionLength) && ValidText(category, MaxCategoryLength)
    requires ValidDateTime(now) && (date.Some? ==> ValidDateTime(date.value))
    ensures Post(PostBody(Some(description), Some(0), Some(category), date), now) == BadRequest
    ensures SatisfiesSchema(Cast(description, 0, category, DateOrNow(date, now), now))
  {
  }

  /** A description of white space only passes the truthiness check but is empty once trimmed: 500. */
  lemma {:induction false} BlankDescriptionFailsOnSave(body: PostBody, now: DateTime)
    requires TruthyText(body.description) && IsBlank(body.description.value)
    requires TruthyAmount(body.amount) && TruthyText(body.category)
    ensures Post(body, now) == ServerError
  {
  }

  /** A negative amount passes the truthiness check and fails the schema's minimum: 500. */
  lemma {:induction false} NegativeAmountFailsOnSave(body: PostBody, now: DateTime)
    requires TruthyText(body.description) && TruthyText(body.category)
    requires body.amount.Some? && body.amount.value < 0
    ensures Post(body, now) == ServerError
  {
  }

  /**
    A body whose text fields are already trimmed and within bounds and whose
    amount is positive is stored as given, dated by the body or else now.
  */
  lemma {:induction false} WellFormedBodyCreated(description: string, amount: int, category: string, date: Option<DateTime>, now: DateTime)
    requires ValidText(description, MaxDescriptionLength) && ValidText(category, MaxCategoryLength)
    requires amount > 0
    requires ValidDateTime(now) && (date.Some? ==> ValidDateTime(date.value))
    ensures Post(PostBody(Some(description), Some(amount), Some(category), date), now)
      == Created(Expense(description, amount, category, DateOrNow(date, now), now, now))
  {
    var body := PostBody(Some(description), Some(amount), Some(category), date);
    var e := Built(body, now);
    assert e == Expense(description, amount, category, DateOrNow(date, now), now, now);
    assert SatisfiesSchema(e);
    SavedWhenValid(body, now);
  }

  lemma {:induction false} SavedWhenValid(body: PostBody, now: DateTime)
    requires TruthyText(body.description) && TruthyAmount(body.amount) && TruthyText(body.category)
    requires SatisfiesSchema(Built(body, now))
    ensures Post(body, now) == Created(Built(body, now))
  {
  }
}
