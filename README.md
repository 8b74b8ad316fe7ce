# reg-gastos: period ranges and expense aggregation, in Dafny

This project models the server side of the expense register **reg-gastos**.
The model covers these parts:

- **The period range switch.** It appears in both GET routes. Given a
  reference date-time and a `period` of `daily`, `weekly`, `monthly` or
  `yearly` (anything else behaves like a day), it computes an inclusive
  `[start, end]` range by building and mutating JavaScript `Date` objects.
- **The record query.** It finds the stored expenses inside the range,
  newest first, and adds up their amounts.
- **The chart aggregation.** It computes:
  - the total;
  - the breakdown by category, with percentages, sorted by amount with a stable sort;
  - the timeline per hour, weekday, day of the month or month;
  - which of these are returned, chosen by the `type` parameter.
- **The POST handler.** It checks the required fields, applies defaults,
  and the Mongoose schema then decides whether the record is saved.
- **`formatDateForInput`.** This is the period selector's `YYYY-MM-DD` formatter.

Modules:

| module | file | contents |
|---|---|---|
| `Calendar` | calendar.dfy | The local civil date-time record and the ECMAScript day arithmetic. This covers day numbers from 1970-01-01, leap years, month lengths and the weekday with Sunday = 0. |
| `JsDates` | js_date.dfy | A class `JsDate` with the `Date` constructors and setters the range switch calls. Day overflow is normalised by `NormalizeDay`, two loops carrying the day forward and back across months, which is proved to keep the day number. |
| `PeriodRange` | period_range.dfy | The range switch as imperative code over `JsDate`, its specification `IsRangeFor`, and the properties of the ranges. |
| `Buckets` | buckets.dfy | The JavaScript object accumulators as insertion-ordered maps, i.e. sequences of key/sum pairs. Also the stable sort used by `Array.prototype.sort`, specified by an insertion-sort function. |
| `ExpenseModel` | expense.dfy | The expense record, `String.prototype.trim`, and the schema's validity rules. |
| `ExpenseStore` | expense_store.dfy | What both GET routes share: query defaults, the inclusive range query with its date-descending sort, and the total. |
| `ExpensesRoute` | expenses_route.dfy | `GET /api/expenses` and `POST /api/expenses`. |
| `ChartsRoute` | charts_route.dfy | `GET /api/expenses/charts`: category breakdown, timelines and breakdown selection. |
| `Decimal` | decimal.dfy | Decimal text of numbers, `parseInt` of a leading number, and `padStart`. |
| `PeriodSelector` | period_selector.dfy | `formatDateForInput`. |
| `ChartScenarios` | chart_scenarios.dfy | Two worked examples of the chart aggregation: a category breakdown and an hourly timeline. |

Amounts are whole cents (`int`) and percentages are exact `real`s.

The database is a sequence of records. The clock (`now`) and the parsed
`date` query parameter are parameters.

## Model

| member | source | states |
|---|---|---|
| JsDates.NormalizeDay | app/api/expenses/charts/route.ts:26-29 | `setDate` normalisation: the loops bring any (year, month, day) to a real calendar date with the same day number, rolling over months and years. |
| JsDates.CarryDayForward | app/api/expenses/charts/route.ts:26-29 | A day past the end of its month is carried into the following months, down to a day within its month, with the day number kept. |
| JsDates.CarryDayBack | app/api/expenses/charts/route.ts:26-29 | A day before the start of its month is carried into the preceding months, up to a real calendar date, with the day number kept. |
| JsDates.MakeFullYear | app/api/expenses/charts/route.ts:21-22 | The `Date` constructor keeps every year outside 0..99 and reads a year 0..99 as 1900..1999, keeping its last two digits. |
| JsDates.JsDate.FromValue | app/api/expenses/charts/route.ts:15 | `new Date(date)`, given the already-read date-time, holds exactly that date-time. |
| JsDates.JsDate.Copy | app/api/expenses/charts/route.ts:26-28 | `new Date(d)` of another `Date` is a separate `Date` holding the same date-time. |
| JsDates.JsDate.Local | app/api/expenses/charts/route.ts:21-22 | `new Date(y, m, d, h, mi, s, ms)` gives a valid date whose day number is MakeDay of the year after MakeFullYear (0..99 read as 1900..1999), with the given time. |
| JsDates.JsDate.GetDay | app/api/expenses/charts/route.ts:25 | `getDay()` is the weekday index 0..6 with Sunday = 0. |
| JsDates.JsDate.SetDate | app/api/expenses/charts/route.ts:26 | `setDate(k)` moves to day k of the current month, rolling over, and keeps the time. |
| JsDates.JsDate.SetHours | app/api/expenses/charts/route.ts:27 | `setHours(h, mi, s, ms)` sets the time and keeps the date. |
| PeriodRange.ParsePeriod | app/api/expenses/charts/route.ts:19-43 | Each of the four period names selects its own case, and every other string falls to the default branch. |
| PeriodRange.DailyRange | app/api/expenses/charts/route.ts:20-23 | Corrected `daily` (the year is set with `setFullYear`): the reference day from 00:00:00.000 to 23:59:59.999. |
| PeriodRange.WeeklyRange | app/api/expenses/charts/route.ts:24-31 | `weekly` starts on the Sunday on or before the reference day at 00:00:00.000 and ends six days later at 23:59:59.999, across month and year ends. |
| PeriodRange.MonthlyRange | app/api/expenses/charts/route.ts:32-35 | Corrected `monthly` (the year is set with `setFullYear`): day 1 to the month's last day (28/29/30/31 by the Gregorian rules), taken as day 0 of the next month. |
| PeriodRange.YearlyRange | app/api/expenses/charts/route.ts:36-39 | Corrected `yearly` (the year is set with `setFullYear`): January 1 00:00:00.000 to December 31 23:59:59.999 of the reference year. |
| PeriodRange.DefaultRange | app/api/expenses/charts/route.ts:40-42 | An unrecognised period gives the reference day's bounds, through two `setHours` calls. |
| PeriodRange.ResolveRange | app/api/expenses/route.ts:18-43 | The corrected switch of both routes yields exactly the range `IsRangeFor` describes, for every period. |
| PeriodRange.LocalConstructorRange | app/api/expenses/charts/route.ts:21-22 | The daily, monthly and yearly dates as written, through the local constructor, land on the MakeFullYear-adjusted day numbers. |
| PeriodRange.LocalDayBounds | app/api/expenses/charts/route.ts:21-22 | The pair `new Date(y, m, d, 0, 0, 0, 0)` and `new Date(y, m, d, 23, 59, 59, 999)` gives the start and the end of whole days, in the year the constructor reads `y` as. |
| PeriodRange.WholeDaysBound | app/api/expenses/route.ts:45-46 | Between a start-of-day and an end-of-day bound, comparing instants is the same as comparing days. |
| PeriodRange.ResolveRangeAsWritten | app/api/expenses/route.ts:18-43 | The switch as written agrees with `IsRangeFor` for weekly, default, and any year outside 0..99. For a daily range it starts on the MakeFullYear-adjusted day. |
| PeriodRange.AsWrittenDailyRangeOfYear50 | app/api/expenses/route.ts:21-22 | For a reference in year 50, the as-written daily range starts after the reference itself. |
| PeriodRange.LocalConstructorAgrees | app/api/expenses/route.ts:21-22 | Outside years 0..99, the constructor-built ranges are the intended ones. |
| PeriodRange.RangeForUnique | app/api/expenses/route.ts:18-43 | The range is a function of (period, reference), so the list and chart routes cover the same interval. |
| PeriodRange.RangeContainsReference | app/api/expenses/charts/route.ts:19-43 | Every range contains its reference instant, so start <= end. |
| PeriodRange.RangeSpan | app/api/expenses/charts/route.ts:19-43 | A range spans 1, 7, the month's length or the year's length in days, less one millisecond. |
| PeriodRange.WeekHasOneSunday | app/api/expenses/charts/route.ts:24-30 | Inside a weekly range, a day's weekday index is its distance from the range's Sunday. |
| PeriodRange.YearlyRangeSameYear | app/api/expenses/charts/route.ts:36-38 | Every instant inside a yearly range falls in the reference year. |
| PeriodRange.WeeklyScenario | app/api/expenses/charts/route.ts:24-30 | The week of Friday 2024-03-15 runs from Sunday 10 to Saturday 16 March. |
| PeriodRange.WeekAcrossYears | app/api/expenses/charts/route.ts:24-30 | The week of 2025-01-01 starts on 2024-12-29 and ends on 2025-01-04. |
| PeriodRange.LeapFebruaryScenario | app/api/expenses/charts/route.ts:34 | The monthly range of February 2024 ends on the 29th. |
| Calendar.InstantDayOrder | app/api/expenses/route.ts:45-47 | Instants order as their days do, so range bounds at day start and day end compare correctly. |
| Calendar.MonthFollowsInstant | app/api/expenses/charts/route.ts:138 | Within one year, a later instant never has an earlier month. |
| ExpenseStore.ReadQuery | app/api/expenses/route.ts:11-12 | An absent or empty `period` becomes `daily`, and an absent `date` becomes now. |
| ExpenseStore.MatchesRange | app/api/expenses/route.ts:45-46 | A record is selected exactly when start <= date <= end, both ends inclusive. |
| ExpenseStore.InRange | app/api/expenses/route.ts:45-46 | With bounds at the start and the end of whole days, a record is inside exactly when its day lies between the two days. |
| ExpenseStore.TotalAmount | app/api/expenses/route.ts:49 | The total of no records is 0, and it is non-negative when every amount is. |
| ExpenseStore.TotalAmountPermutation | app/api/expenses/route.ts:49 | The total does not depend on the order of the records. |
| ExpenseStore.FindInRange | app/api/expenses/route.ts:45-47 | The result holds exactly the records inside the range, as a permutation of the matches, sorted by date descending. |
| ExpensesRoute.GetExpenses | app/api/expenses/route.ts:6-56 | The response holds the period label, the range `IsRangeFor` gives (the corrected switch), exactly the in-range records newest first, and their total. |
| ExpensesRoute.Status | app/api/expenses/route.ts:74-96 | The outcomes map to statuses 400, 500 and 201, one for one. |
| ExpensesRoute.DateOrNow | app/api/expenses/route.ts:85 | The stored date is the supplied one if present, otherwise now. |
| ExpensesRoute.Built | app/api/expenses/route.ts:81-86 | The document built from the body has trimmed text fields, the given amount, the date or now, and both timestamps set to now. |
| ExpensesRoute.Post | app/api/expenses/route.ts:74-90 | 400 exactly when `description`, `amount` or `category` is falsy. Otherwise 201 exactly when the built document satisfies the schema, and the stored document is the built one. |
| ExpensesRoute.ZeroAmountRefused | app/api/expenses/route.ts:74-79 | An amount of 0 is refused with 400 although the schema would accept it. |
| ExpensesRoute.BlankDescriptionFailsOnSave | app/api/expenses/route.ts:74-96 | A description of white space only passes the falsy check but fails `required` after trimming. |
| ExpensesRoute.NegativeAmountFailsOnSave | models/Expense.ts:19-23 | A negative amount passes the falsy check but fails `min: 0`. |
| ExpensesRoute.WellFormedBodyCreated | app/api/expenses/route.ts:81-90 | A body that is already trimmed, within bounds and positive is stored exactly as given, dated by the body or now. |
| ExpenseModel.Trim | models/Expense.ts:16 | `trim` leaves no white space at either end, and leaves nothing exactly when the text is all white space. |
| ExpenseModel.TrimCutsBlanks | models/Expense.ts:16 | What `trim` keeps is a contiguous piece of the text, and everything cut off is white space. |
| ExpenseModel.TrimIdempotent | models/Expense.ts:16 | Trimming twice is trimming once. |
| ExpenseModel.Utf16Length | models/Expense.ts:17 | `maxlength` counts UTF-16 code units, between one and two per character. |
| ExpenseModel.Cast | models/Expense.ts:12-37 | The document is cast with trimmed text fields, the given amount and date, and both timestamps set to now. |
| ExpenseModel.TrimmedTextValidIff | models/Expense.ts:13-18 | A trimmed field is valid exactly when the original is not all white space and the trimmed text fits the limit. |
| ExpenseModel.CastSatisfiesSchemaIff | models/Expense.ts:12-37 | A record passes exactly when description (<= 200) and category (<= 50) are non-blank and fit after trimming, the amount is >= 0 (0 included), and the date is real. |
| ExpenseModel.SatisfiesSchema | models/Expense.ts:12-37 | A record that passes has a non-blank description of at most 200 UTF-16 code units, a non-blank category of at most 50, an amount >= 0 and a real date. |
| Buckets.GroupSums | app/api/expenses/charts/route.ts:59-67 | The fold `if (acc[k]) acc[k] += a else acc[k] = a` gives exactly one bucket per distinct key. Each bucket holds that key's sum, the buckets are in first-occurrence order, and the sums add up to the total. |
| Buckets.Accumulate | app/api/expenses/charts/route.ts:61-65 | One step of the fold adds the amount to the total of the buckets, whether it opens a bucket, overwrites a zero one or adds to it. |
| Buckets.AccumulateAdds | app/api/expenses/charts/route.ts:61-65 | Overwriting a falsy (zero) bucket is the same as adding to it. |
| Buckets.GroupFoldGroups | app/api/expenses/charts/route.ts:59-67 | The specification of the fold groups its entries, and keeps their total. |
| Buckets.StableSortBy | app/api/expenses/charts/route.ts:73 | `Array.prototype.sort` returns a sorted permutation, and the elements of each key keep their input order. |
| Buckets.InsertionSortStable | app/api/expenses/charts/route.ts:73 | Sorting keeps the relative order of the elements of each key. |
| Buckets.InsertionSortKeepsRank | app/api/expenses/charts/route.ts:73 | Equal-key elements stay in ascending input rank. |
| Buckets.InsertionSortStrict | app/api/expenses/charts/route.ts:98 | When all keys differ, the sorted keys are strictly ascending. |
| Buckets.SumByPermutation | app/api/expenses/charts/route.ts:69-73 | A sum over the elements does not depend on their order. |
| ChartsRoute.Percentage | app/api/expenses/charts/route.ts:72 | percentage · total = 100 · amount when the total is positive, and 0 otherwise. |
| ChartsRoute.SharesOf | app/api/expenses/charts/route.ts:69-72 | The buckets become shares one for one, in bucket order, each with its category, its sum and its percentage of the total. |
| ChartsRoute.CategoryBreakdown | app/api/expenses/charts/route.ts:59-73 | One share per distinct category, and one for every category present. Each share holds its category's sum and its percentage. Shares are sorted by amount, largest first; equal amounts keep first-occurrence order; the amounts add up to the total. |
| ChartsRoute.PercentagesSumTo100 | app/api/expenses/charts/route.ts:69-73 | With a positive total, the percentages add up to exactly 100. |
| ChartsRoute.TimeKey | app/api/expenses/charts/route.ts:85-140 | The hour key reads back (`parseInt`) as the hour and the day key as the day of the month; weekday keys are among `Dom..Sáb` and month keys among `Ene..Dic`. |
| ChartsRoute.PointsOf | app/api/expenses/charts/route.ts:94-97 | The buckets become points one for one, in bucket order, each labelled with its key plus the suffix and holding its sum. |
| ChartsRoute.NumberedTimeline | app/api/expenses/charts/route.ts:84-98 | The hourly (`H:00`) or day-of-month timeline has exactly one point per hour or day present. Each point holds that bucket's sum, and the points are in strictly ascending numeric order with amounts summing to the total. |
| ChartsRoute.NumberedTimelineBounds | app/api/expenses/charts/route.ts:84-134 | Hourly labels are 0..23, and day-of-month labels are 1..31. |
| ChartsRoute.FirstSeenTimeline | app/api/expenses/charts/route.ts:99-117 | The weekday or month timeline groups the records by name in first-occurrence order, with sums adding up to the total. |
| ChartsRoute.FirstSeenNames | app/api/expenses/charts/route.ts:103-104 | Every weekday or month point is named from `Dom..Sáb` or `Ene..Dic`. |
| ChartsRoute.WeekdayTimelineNewestFirst | app/api/expenses/charts/route.ts:99-117 | Within a week and on newest-first records, weekday points run in reverse calendar order. |
| ChartsRoute.MonthTimelineNewestFirst | app/api/expenses/charts/route.ts:135-153 | Within a year and on newest-first records, month points run in reverse calendar order. |
| ChartsRoute.Timeline | app/api/expenses/charts/route.ts:80-154 | Each period gets its own timeline, and an unrecognised period gets an empty one. |
| ChartsRoute.Aggregate | app/api/expenses/charts/route.ts:49-157 | The total, plus the category data exactly for `category`/`all` and the timeline exactly for `timeline`/`all`, each as specified above. |
| ChartsRoute.ChartType | app/api/expenses/charts/route.ts:13 | An absent or empty `type` means `all`. |
| ChartsRoute.GetCharts | app/api/expenses/charts/route.ts:6-159 | The response's range is `IsRangeFor`'s (the corrected switch). Its charts summarise a newest-first ordering of exactly the in-range records, and the total is theirs. |
| ChartScenarios.CategoryScenario | app/api/expenses/charts/route.ts:59-73 | Food 10 and Transport 30 (total 40) give exactly Transport 30 at 75% and then Food 10 at 25%. |
| ChartScenarios.HourlyScenario | app/api/expenses/charts/route.ts:84-98 | Records at 9:00 (4), 9:45 (6) and 14:10 (20) give exactly the points "9:00" with 10 and "14:00" with 20. |
| PeriodSelector.FormatDateForInput | components/PeriodSelector.tsx:23-29 | The text is the year, '-', two characters, '-', two characters. |
| Decimal.PadStart | components/PeriodSelector.tsx:26-27 | `padStart(width, fill)` ends with the text, is as long as the width or the text, and fills the front with the fill character. |
| Decimal.ParseLeadingInt | app/api/expenses/charts/route.ts:98 | `parseInt` of a non-empty text made only of digits is the number those digits denote. |
| Decimal.ParseLeadingIntOfLabel | app/api/expenses/charts/route.ts:95-98 | `parseInt` of a number's decimal text followed by a non-digit suffix such as ":00" gives the number back. |
| PeriodSelector.FormatReadBack | components/PeriodSelector.tsx:25-28 | The year, the 1-based month (`getMonth() + 1`) and the day read back from the two-digit, zero-padded groups. |
| PeriodSelector.FormatFourDigitYear | components/PeriodSelector.tsx:25-28 | A four-digit year gives exactly ten characters, with the year in the first four. |
| PeriodSelector.FormatInjective | components/PeriodSelector.tsx:23-29 | Distinct dates give distinct texts. |

## Left out

- Time zones and daylight saving time. Dates are local civil date-times, and every day is 24 hours long.
- Parsing of date strings (`new Date(text)`) in the routes. The reference date and "now" arrive already read as local date-times.
- The years in which the `Date` range itself ends (±8.64e15 ms), and invalid dates (NaN).
- Floating point. Amounts are whole cents, percentages are exact reals, and `parseFloat` of the amount is the identity on numbers.
- Body values that are neither strings nor numbers, such as arrays, booleans and strings given as the amount.
- MongoDB, Mongoose and Next.js plumbing: the connection, `find`, `save`, the JSON responses, and every 500 path except a failed schema validation. The database is a sequence of records.
- The `_id` and the Mongoose document wrapper.
- ExpensesRoute.GetExpenses, ChartsRoute.GetCharts, PeriodRange.DailyRange, PeriodRange.MonthlyRange, PeriodRange.YearlyRange: they model the corrected range switch, which builds the daily, monthly and yearly dates with the reference's own year. The code as written reads a reference year from 0 to 99 as 1900 to 1999 (see "## Findings"); that behaviour is modelled by PeriodRange.ResolveRangeAsWritten, and the route models do not reproduce it. The corrected dates are built by JsDates.JsDate.SetFullYear and PeriodRange.NewLocalDate, which stand for no line of the source.
- ExpenseStore.FindInRange: the database's order among records with the same date is not modelled. Only a date-descending permutation of the matches is promised.
- ChartsRoute.GetCharts: for the same reason, the charts are stated about some date-descending ordering of the matching records, not about a particular one.
- ChartsRoute.CategoryBreakdown: it assumes plain insertion order for object keys. JavaScript enumerates integer-like category names such as "5" first, in numeric order, and reads inherited keys such as "toString" as truthy. The hourly and day-of-month timelines sort their keys afterwards, so they are not affected.
- Decimal.ParseLeadingInt: it models `parseInt` only on text that starts with a digit, which is the only text the chart route gives it (the labels `n:00` and `n`). On other text it returns 0: on the empty text, where `parseInt` gives NaN, and on text with leading white space or a sign, which `parseInt` skips (`parseInt(" 5")` and `parseInt("+5")` are 5). The ensures' case for the empty text is therefore about the model, not about `parseInt`.
- JsDates.JsDate.SetHours: it is only given in-range time arguments, which are the only ones the routes pass, so hour overflow into the next day is not modelled.
- The React components, including the event handlers and the JSX of the period selector.

## Findings

| source | as written | input that shows it | evidently intended | confidence | as-written member | corrected member |
|---|---|---|---|---|---|---|
| app/api/expenses/route.ts:21-22, 33-34, 37-38 (and the same lines of app/api/expenses/charts/route.ts) | `new Date(targetDate.getFullYear(), ...)` reads a year from 0 to 99 as 1900 to 1999 | `period=daily`, reference 0050-03-15T12:00: the range is 1950-03-15, which does not contain the reference | the range of the reference's own year | not executed | PeriodRange.ResolveRangeAsWritten, PeriodRange.AsWrittenDailyRangeOfYear50 | PeriodRange.ResolveRange |
