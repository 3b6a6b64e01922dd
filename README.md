# Broke Again AI: spending analytics in Dafny

Broke Again AI is a personal budget dashboard written as a single React
component file. Besides its UI, storage and calls to a hosted language
model, it holds a small set of analytics over the list of expense records.
This project models those analytics and proves properties of them:

- **Forecaster** (`calculateForecast`).
  - It buckets expenses by local calendar day and sorts the distinct days.
  - With fewer than two days it divides the total by the number of
    *records*, with confidence 30.
  - Otherwise it builds one `(x, y)` point per day and computes the
    inclusive day span.
  - It guards on the least-squares denominator.
  - It predicts a daily spend: the historical average over the span, plus
    0.3 times the first-to-last slope, floored at 0 from three days on.
  - It labels the trend by comparing the means of the two halves of the
    points.
  - It scores confidence as `min(85, 30 + 5n + 2·daysBetween)`.
- **Dashboard metrics** (`calculateMetrics`): the grand total, the total
  of the current calendar month, the total since one week ago, and the
  total per category. The current time is the parameter `now`.
- **Receipt-item validation** (in `handleFileUpload`): the model's reply
  must parse as JSON and be an array. Items with a numeric amount strictly
  between 0 and 10000 are kept. Each gets a known category or `Other`, a
  description cut to 50 characters (default `Item`), and the upload instant
  as its date. At most 20 are offered, and an empty result gives the
  "no valid expenses" message.
- **Monthly grouping** (in `Analytics`): a total and a count per `YYYY-MM`
  month, the months in ascending order, and the highest and mean monthly
  totals.
- **Top-3 categories** (in `generateSuggestions`): per-category totals and
  record lists, the total spent, and the three categories with the highest
  totals, highest first.

## Modules

- `Wrappers`: `Option`, `Result`, `Min`/`Max`.
- `Calendar`: instants, days and months.
- `Ledger`: expense records and the generic per-key bucketing, defined once
  and used for days, months and categories.
- `Forecaster`, `Aggregator`, `Extraction`, `Monthly`, `Suggestions`: one
  module per part listed above.

Each loop that fills a JavaScript object with `forEach` is a method with a
loop invariant. The methods are `Forecaster.BucketByDay`,
`Aggregator.CalculateMetrics`, `Monthly.BucketByMonth` and
`Suggestions.BucketByCategory`. Each is proved equal to specification
functions:

- `Forecaster.BucketByDay`: `Ledger.Buckets` by day for the totals and
  `Ledger.FirstSeen` for the object's key order.
- `Aggregator.CalculateMetrics`: `Aggregator.MetricsOf`, whose category
  totals are `Ledger.Buckets` by category. It builds no key order.
- `Monthly.BucketByMonth`: `Monthly.MonthlyData` for the `{total, count}`
  entries and `Ledger.FirstSeen` for the key order.
- `Suggestions.BucketByCategory`: `Ledger.Buckets` for the totals,
  `Suggestions.ByCategory` for the record lists and `Ledger.FirstSeen` for
  the key order.
 The `let` variables that `calculateForecast`
reassigns are a method too (`Forecaster.FitPoints`). The pipelines built
from `map`, `filter`, `reduce`, `slice` and `sort` are functions.

## Representation choices

- **Amounts** are exact `real`s.
- **Instants** are integer milliseconds of local wall-clock time, counted
  from 1970-01-01. A day is `t / 86400000`, and the calendar is the
  proleptic Gregorian one.
- **Month keys.** A `YYYY-MM` key is represented by the month index
  `12·year + month − 1`. Sorting these indices is sorting by
  (year, month), which is the order in which `sort()` puts the key
  strings whenever years have four digits.
- **Object key order.** A JavaScript object with non-integer keys keeps
  them in insertion order. `Object.keys`, `Object.values` and
  `Object.entries` follow that order, which `Ledger.FirstSeen` models.
- **Sorting with a comparator.** `sort` with a comparator is modelled as
  a stable insertion sort. Since `Array.prototype.sort` is stable, this is
  the only possible result (`Suggestions.StableSortIsSortDescending`).
  Among tied category totals, the category recorded first comes first
  (`Suggestions.SortStable`).
- **Parsed JSON elements.** A parsed element of the reply is `null`, a
  non-object, or an object given by the three properties the pipeline
  reads. Each property is absent, `null`, a boolean, a number, a string,
  or an object/array.

Behaviour of the code worth knowing:

- **Last-week window.** `lastWeek` counts every record dated at or after
  one week before `now`, including records dated after `now`. There is no
  upper end to the window.
- **Extraction map runs over every kept item.** The map runs over all kept
  items before the list is cut to 20. A kept item past the twentieth whose
  description is a truthy non-string still makes the whole upload fail.
- **`null` elements.** A `null` element makes the amount filter throw,
  failing the upload.
- **Dead guard.** The confidence-40 guard branch cannot be reached with
  two or more distinct days. `Forecaster.GuardNeverFires` proves the
  denominator is then at least 1. The branch is still modelled.

## Model

| member | source | states |
|---|---|---|
| Calendar.DayOf | broke-again-ai.jsx:73 | the day of an instant is the one whose midnight is at or before it and whose next midnight is after it |
| Calendar.MidnightRoundTrip | broke-again-ai.jsx:90-91 | going from a day to its midnight (`new Date(dateString)`) and back gives the same day |
| Calendar.MidnightSpan | broke-again-ai.jsx:92-95 | whole days between two midnights are the difference of the day numbers |
| Calendar.CivilMonth | broke-again-ai.jsx:776 | every day falls in a month between 1 and 12 (its Gregorian meaning is `Calendar.CivilMonthCorrect` and `Calendar.CivilMonthUnique`) |
| Calendar.YearAndOffsetCorrect | broke-again-ai.jsx:776 | the year found for a day, plus the offset, is that day counted from 1 January 1970 |
| Calendar.MonthFromCorrect | broke-again-ai.jsx:776 | the month found for a day of the year is the one whose days hold it |
| Calendar.CivilMonthCorrect | broke-again-ai.jsx:776 | the day lies between the first day of the Gregorian month `getFullYear`/`getMonth` name and the first day of the next |
| Calendar.CivilMonthUnique | broke-again-ai.jsx:776 | conversely, any month whose days hold the day is the month `CivilMonth` gives |
| Calendar.LaterMonthStartsLater | broke-again-ai.jsx:776 | a month of higher index starts after an earlier month has ended, so the months do not overlap |
| Calendar.CivilMonthExamples | broke-again-ai.jsx:776 | 28 February 1970 is in February, 1 March 1970 in March, and 31 December 1969 in December 1969 |
| Calendar.MonthIndexRoundTrip | broke-again-ai.jsx:776 | year and month can be read back from the month key |
| Calendar.SameMonthIndex | broke-again-ai.jsx:298-302 | two instants share a month key exactly when both year and month agree |
| Calendar.MonthIndexOrder | broke-again-ai.jsx:782 | ascending month keys are ascending (year, month) |
| Ledger.Buckets | broke-again-ai.jsx:72-75 | the per-key totals hold exactly the keys that occur |
| Ledger.TotalSnoc | broke-again-ai.jsx:80 | appending a record adds its amount to the total |
| Ledger.KeyTotalSnoc | broke-again-ai.jsx:74 | appending a record adds its amount and one to its own key's total and count and to no other, and adds its key |
| Ledger.SumSinceSnoc | broke-again-ai.jsx:304-309 | appending a record raises the since-cutoff sum exactly when it is dated at or after the cutoff |
| Ledger.AbsentKey | broke-again-ai.jsx:74 | a key that never occurs has total and count 0 (`|| 0`) |
| Ledger.KeysMembership | broke-again-ai.jsx:72-75 | a key occurs exactly when some record carries it |
| Ledger.BucketsSnoc | broke-again-ai.jsx:74 | appending a record updates the bucket map at its key only, starting a new key at 0 |
| Ledger.FirstSeenSnoc | broke-again-ai.jsx:77 | the object's key order grows by a record's key exactly when that key is new |
| Ledger.FirstSeenKeys | broke-again-ai.jsx:77 | the key order has no repeats, lists every record's key and only keys that occur |
| Ledger.FirstSeenMembership | broke-again-ai.jsx:77 | a key is in the key order exactly when it occurs |
| Ledger.KeyedSumSnoc | broke-again-ai.jsx:116 | appending a record adds its amount to a sum over distinct keys exactly when its key is listed |
| Ledger.KeyedSumIsTotal | broke-again-ai.jsx:116 | per-key totals of distinct keys covering every record add up to the grand total, and the counts to the number of records |
| Ledger.ValuesSumIsKeyedSum | broke-again-ai.jsx:116 | reading the bucket map back key by key gives the per-key totals |
| Ledger.ValuesSumIsTotal | broke-again-ai.jsx:116 | the values of the bucket map, summed in key order, give the grand total |
| Ledger.EmptyKeyedSum | broke-again-ai.jsx:116 | with no records every keyed sum and count is 0 |
| Ledger.KeyTotalAtMostTotal | broke-again-ai.jsx:296-302 | with non-negative amounts a key's total is between 0 and the grand total |
| Ledger.SumSinceAtMostTotal | broke-again-ai.jsx:304-309 | with non-negative amounts the since-cutoff sum is between 0 and the grand total |
| Ledger.TotalNonNegative | broke-again-ai.jsx:80 | with non-negative amounts the total is non-negative |
| Ledger.InsertAscending | broke-again-ai.jsx:77 | inserting into an ascending list keeps it ascending and adds exactly the one element |
| Ledger.SortAscending | broke-again-ai.jsx:77 | the sorted days are ascending and a permutation of the keys |
| Ledger.SortDistinct | broke-again-ai.jsx:77 | sorting distinct keys gives a strictly increasing list of the same keys |
| Ledger.RepeatCount | broke-again-ai.jsx:77 | a value found at two positions occurs at least twice |
| Ledger.DistinctCount | broke-again-ai.jsx:77 | a list without repeats holds each value at most once |
| Ledger.IncreasingSpan | broke-again-ai.jsx:92 | strictly increasing days span at least their number less one |
| Forecaster.BucketByDay | broke-again-ai.jsx:71-75 | the loop builds exactly the per-day totals and the object's key order |
| Forecaster.CalculateForecast | broke-again-ai.jsx:68-145 | the method returns exactly the reference forecast `ForecastOf` |
| Forecaster.FitPoints | broke-again-ai.jsx:99-144 | the sums, guard, reassigned prediction and trend give exactly `FromPoints` |
| Forecaster.ForecastOf | broke-again-ai.jsx:69 | there is no forecast exactly when there are no records |
| Forecaster.Points | broke-again-ai.jsx:94-97 | one point per day, its `x` the distance from the first day and its `y` that day's total |
| Forecaster.DataPoints | broke-again-ai.jsx:94-97 | there are as many points as distinct days |
| Forecaster.DatesAreDays | broke-again-ai.jsx:77 | the sorted days strictly increase, have no repeats, and are exactly the days with spending |
| Forecaster.Flat | broke-again-ai.jsx:79-88 | the flat forecasts predict 30 times the daily average and are stable |
| Forecaster.PredictedDaily | broke-again-ai.jsx:117-126 | from three days on the predicted daily spend is never negative |
| Forecaster.TrendOf | broke-again-ai.jsx:130-137 | fewer than three points are always stable |
| Forecaster.Confidence | broke-again-ai.jsx:143 | confidence is at most 85, and at least 30 for non-negative inputs |
| Forecaster.SumYOfPoints | broke-again-ai.jsx:94-101 | the points' `y` values sum to the per-day totals of their days |
| Forecaster.DailyTotalsSumToTotal | broke-again-ai.jsx:101-116 | the daily totals add up to the sum of all amounts |
| Forecaster.SqDevExpand | broke-again-ai.jsx:104 | the squared deviations expand into the sums of `x` and `x²` |
| Forecaster.SqDevStep | broke-again-ai.jsx:104 | the integer identity behind one step of that expansion |
| Forecaster.SqDevAtLeastCount | broke-again-ai.jsx:104 | squared deviations of distinct integer offsets are at least their number less one |
| Forecaster.DenominatorAtLeast | broke-again-ai.jsx:104 | with strictly increasing `x` the denominator is at least `n − 1` |
| Forecaster.DenominatorStep | broke-again-ai.jsx:104 | the integer identity linking the denominator to squared deviations |
| Forecaster.GuardNeverFires | broke-again-ai.jsx:104-114 | with two or more days the denominator is at least 1, so the confidence-40 branch is never taken |
| Forecaster.DaysBetweenSpan | broke-again-ai.jsx:90-92 | `daysBetween` is last day − first day + 1 and at least the number of days |
| Forecaster.ForecastFewDays | broke-again-ai.jsx:79-88 | one day: total / number of records, 30 times that, stable, confidence 30 |
| Forecaster.ForecastOneRecord | broke-again-ai.jsx:79-88 | one record of amount A: A a day, 30·A a month, stable, 30 |
| Forecaster.ForecastManyDays | broke-again-ai.jsx:116-144 | two or more days: the adjusted historical average, the half-mean trend and the capped confidence, at least `min(85, 30 + 7n)` |
| Forecaster.ForecastTwoDays | broke-again-ai.jsx:116-144 | two days: total / `daysBetween`, stable, `min(85, 40 + 2·daysBetween)` |
| Forecaster.ThreeDaysNeverNegative | broke-again-ai.jsx:120-126 | from three days on the daily average is never negative, whatever the amounts |
| Forecaster.TwoDayExample | broke-again-ai.jsx:116-144 | 10 and 20 on consecutive days give 15 a day, 450 a month, stable, confidence 44 |
| Forecaster.MonthlyIsThirtyDays | broke-again-ai.jsx:84-128 | in every branch the monthly prediction is 30 times the daily average |
| Forecaster.ConfidenceRange | broke-again-ai.jsx:86-143 | the confidence is 30, or between 44 and 85; it is never 40 |
| Forecaster.DailyAverageNonNegative | broke-again-ai.jsx:80-125 | with non-negative amounts the daily average is never negative in any branch |
| Forecaster.PredictedDailyNonNegative | broke-again-ai.jsx:117-125 | a non-negative total gives a non-negative prediction |
| Forecaster.ConfidenceMonotone | broke-again-ai.jsx:143 | more days or a longer span never lower the confidence |
| Forecaster.SumYAtMost | broke-again-ai.jsx:132-133 | a sum of `y` values each at most c is at most n·c |
| Forecaster.SumYAtLeast | broke-again-ai.jsx:132-133 | a sum of `y` values each at least c is at least n·c |
| Forecaster.SumYAbove | broke-again-ai.jsx:132-133 | a non-empty sum of `y` values each above c is above n·c |
| Forecaster.SumYBelow | broke-again-ai.jsx:132-133 | a non-empty sum of `y` values each below c is below n·c |
| Forecaster.MeanAtMost | broke-again-ai.jsx:132-133 | a mean of values at most c is at most c |
| Forecaster.MeanAtLeast | broke-again-ai.jsx:132-133 | a mean of values at least c is at least c |
| Forecaster.MeanAbove | broke-again-ai.jsx:132-133 | a mean of values above c is above c |
| Forecaster.MeanBelow | broke-again-ai.jsx:132-133 | a mean of values below c is below c |
| Forecaster.HalfElements | broke-again-ai.jsx:132-133 | the halves split at `floor(n/2)` are non-empty and their means are the half means |
| Forecaster.TrendRising | broke-again-ai.jsx:131-135 | first-half days at most c and second-half days above 1.1·c give `increasing` |
| Forecaster.TrendFalling | broke-again-ai.jsx:131-136 | first-half days at least c ≥ 0 and second-half days below 0.9·c give `decreasing` |
| Forecaster.TrendFlat | broke-again-ai.jsx:130-137 | the same non-negative amount every day is `stable` |
| Forecaster.TrendDirection | broke-again-ai.jsx:130-137 | with non-negative totals `increasing` means a strictly higher second-half mean and `decreasing` a strictly lower one, both from three days on |
| Forecaster.FiveDayExample | broke-again-ai.jsx:131-136 | 10, 10, 10, 30, 30 have half means 10 and 70/3 and are `increasing` |
| Aggregator.WeekAgo | broke-again-ai.jsx:305-306 | one week ago is seven days earlier at the same time of day |
| Aggregator.CalculateMetrics | broke-again-ai.jsx:295-317 | the method returns exactly `MetricsOf`; its loop builds the category totals |
| Aggregator.MetricsEmpty | broke-again-ai.jsx:295-317 | no records: all figures 0 and no categories |
| Aggregator.MetricsSnoc | broke-again-ai.jsx:296-314 | appending a record changes the four figures exactly as each filter and `forEach` says |
| Aggregator.CurrentMonthRecord | broke-again-ai.jsx:298-302 | a current-month record raises this month's total by exactly its amount |
| Aggregator.OtherMonthRecord | broke-again-ai.jsx:298-302 | a record of any other month leaves it unchanged |
| Aggregator.FutureRecordCountsAsLastWeek | broke-again-ai.jsx:304-309 | a record dated after `now` still counts in last week's total |
| Aggregator.OldRecordNotLastWeek | broke-again-ai.jsx:304-309 | a record from before one week ago does not |
| Aggregator.CategoryTotalsSumToTotal | broke-again-ai.jsx:311-316 | the category totals in key order add up to the total |
| Aggregator.CategoryTotalsOverAllCategories | broke-again-ai.jsx:311-314 | the six categories' totals and counts add up to the total and the number of records |
| Aggregator.PartialTotalsBounded | broke-again-ai.jsx:296-309 | with non-negative amounts this month's and last week's totals are between 0 and the total |
| Aggregator.ThisMonthIsMonthBucket | broke-again-ai.jsx:298-302 | this month's total is the total of the current month's key |
| Extraction.Kept | broke-again-ai.jsx:462 | the filter keeps no more items than it is given, and each of them passes the amount test |
| Extraction.DescriptionOf | broke-again-ai.jsx:467 | falsy gives `Item`; a non-empty string gives its prefix of length min(50, len); any other value fails; never more than 50 characters |
| Extraction.KeptMembership | broke-again-ai.jsx:462 | an item is kept exactly when it is in the array and passes the amount test |
| Extraction.KeptConcat | broke-again-ai.jsx:462 | filtering keeps the order: filtering a concatenation concatenates the filtered parts |
| Extraction.MapItemsCorrect | broke-again-ai.jsx:463-469 | the map fails exactly when some kept item has a bad description; otherwise it gives one record per kept item, in order, built from that item |
| Extraction.ValidatedItems | broke-again-ai.jsx:459-470 | a successful validation gives `min(20, kept)` records, the first kept in order, amounts in (0, 10000), descriptions at most 50 long, dated `now` |
| Extraction.ValidationFails | broke-again-ai.jsx:462-469 | validation fails exactly on a `null` element (reported first) or a kept item with a bad description, even past the twentieth |
| Extraction.CategoryRoundTrip | broke-again-ai.jsx:459-466 | each of the six names is kept as its category |
| Extraction.UnknownCategoryIsOther | broke-again-ai.jsx:466 | anything else becomes `Other` |
| Extraction.ReplyOutcomes | broke-again-ai.jsx:448-478 | unparsable and non-array replies fail; "no valid expenses" exactly when the array has no `null` and nothing passes the filter; otherwise 1 to 20 records |
| Monthly.MonthlyData | broke-again-ai.jsx:773-780 | the monthly map holds exactly the months that occur |
| Monthly.TotalsOf | broke-again-ai.jsx:783 | one total per listed month, read from the map |
| Monthly.CountsOf | broke-again-ai.jsx:779 | one count per listed month, read from the map |
| Monthly.MaxOf | broke-again-ai.jsx:784 | no monthly total exceeds the maximum |
| Monthly.MaxOfIsElement | broke-again-ai.jsx:784 | the maximum is one of the totals |
| Monthly.MonthsAreMonths | broke-again-ai.jsx:782 | the sorted months strictly increase and are exactly the months with spending |
| Monthly.MonthlyDataSnoc | broke-again-ai.jsx:777-779 | appending a record adds its amount and one to its month, creating the month at zero |
| Monthly.MonthStep | broke-again-ai.jsx:774-780 | one step of the loop updates the monthly map and the key order together |
| Monthly.BucketByMonth | broke-again-ai.jsx:773-780 | the loop builds exactly the monthly map and the object's key order |
| Monthly.GroupByMonth | broke-again-ai.jsx:773-785 | the method returns exactly `MonthlyOf` |
| Monthly.MonthsListed | broke-again-ai.jsx:782-783 | the months come out in ascending order, one total per month |
| Monthly.SumTotalsIsKeyedSum | broke-again-ai.jsx:783 | summing the listed months' totals and counts gives their keyed sums |
| Monthly.MonthlySums | broke-again-ai.jsx:773-783 | monthly totals add up to the grand total and monthly counts to the number of records |
| Monthly.SumAtMost | broke-again-ai.jsx:785 | a sum of values each at most c is at most n·c |
| Monthly.MeanAtMost | broke-again-ai.jsx:785 | dividing a sum of at most k·c by k gives at most c |
| Monthly.MaxAndMean | broke-again-ai.jsx:784-785 | with records, the maximum is attained, bounds every month and is at least the mean |
| Monthly.MaxAtLeastMean | broke-again-ai.jsx:784-785 | the largest of a non-empty list is at least its mean |
| Monthly.MonthlyEmpty | broke-again-ai.jsx:784-785 | no records: no months, and maximum and mean are 0 (the `Analytics` view returns early at lines 761-771 before computing these) |
| Suggestions.InCategory | broke-again-ai.jsx:159-160 | a category's list is no longer than the records |
| Suggestions.ByCategory | broke-again-ai.jsx:159-160 | the record lists exist for exactly the categories present |
| Suggestions.InCategoryMatches | broke-again-ai.jsx:158-160 | a category's list holds only that category, as many as its count, summing to its total |
| Suggestions.ByCategoryMatchesTotals | broke-again-ai.jsx:156-160 | each present category's list agrees with its count and its total |
| Suggestions.ByCategorySnoc | broke-again-ai.jsx:159-160 | appending a record pushes it onto its category's list, creating the list if new |
| Suggestions.CategoryStep | broke-again-ai.jsx:156-161 | one step updates the totals, the lists and the key order together |
| Suggestions.CategoryStepAt | broke-again-ai.jsx:156-161 | one pass of the loop body, from the state before it to the state after it, keeps the totals, lists and key order equal to their specification |
| Suggestions.BucketByCategory | broke-again-ai.jsx:153-161 | the loop builds exactly the category totals, the lists and the key order |
| Suggestions.SelectCategories | broke-again-ai.jsx:153-164 | the method returns exactly `SelectionOf` |
| Suggestions.Entries | broke-again-ai.jsx:164 | one `[category, amount]` entry per key, in key order |
| Suggestions.InsertDescending | broke-again-ai.jsx:164 | inserting into a descending list keeps it descending and adds exactly the one entry |
| Suggestions.SortDescending | broke-again-ai.jsx:164 | the sorted entries descend by amount and are a permutation of the entries |
| Suggestions.InsertStable | broke-again-ai.jsx:164 | inserting puts the new entry ahead of the entries it ties with and keeps their order |
| Suggestions.SortStable | broke-again-ai.jsx:164 | the sort is stable: for every amount, the entries with that amount keep their key order |
| Suggestions.StableSortUnique | broke-again-ai.jsx:164 | two descending lists with the same entries, in the same order, for every amount are equal |
| Suggestions.StableSortIsSortDescending | broke-again-ai.jsx:164 | any descending list that keeps each amount's entries in input order is the sort's result |
| Suggestions.TiedTotalsExample | broke-again-ai.jsx:164 | a smaller total recorded first and three equal totals after it (Food 10, then Utilities, Other, Healthcare at 20) sort as the three equal ones in recorded order, then the smaller one |
| Suggestions.TopThree | broke-again-ai.jsx:164 | the cut keeps the first `min(3, n)` entries |
| Suggestions.TotalSpentIsTotal | broke-again-ai.jsx:163 | the total spent is the sum of all amounts |
| Suggestions.EntriesDistinct | broke-again-ai.jsx:164 | entries of distinct keys have distinct categories |
| Suggestions.SameMultisetDistinct | broke-again-ai.jsx:164 | a permutation of a list with distinct categories has distinct categories |
| Suggestions.SortedEntries | broke-again-ai.jsx:164 | sorting keeps one entry per key, each carrying the key's total |
| Suggestions.SelectionTop | broke-again-ai.jsx:163-164 | the selected list is the top of the sorted entries in key order |
| Suggestions.TopThreeOfEntries | broke-again-ai.jsx:164 | the top three of distinct keys have length `min(3, n)`, descend, repeat no category and carry their totals |
| Suggestions.TopCategoriesShape | broke-again-ai.jsx:153-164 | the top list has `min(3, categories)` entries, highest first, no category twice, each with its category's total |
| Suggestions.FirstSeenCount | broke-again-ai.jsx:164 | there are as many entries as categories present |
| Suggestions.DistinctSetSize | broke-again-ai.jsx:164 | a repeat-free list of a set's elements has the set's size |
| Suggestions.LeftOutOfEntries | broke-again-ai.jsx:164 | an entry left out of the top three is no larger than the third |
| Suggestions.LeftOutAreSmaller | broke-again-ai.jsx:153-164 | a present category left out of the list means there are three, and its total is at most the third's |
| Suggestions.SelectionEmpty | broke-again-ai.jsx:153-164 | with no records nothing is selected and nothing was spent (the function returns early before this) |

## Left out

- React rendering, `useState`/`useEffect` wiring, alerts, the budget bar and `toFixed` formatting: presentation only.
- `mockStorage`/`localStorage` persistence and the parsing of stored blobs: I/O.
- The `fetch` calls to the language model: the prompts, the API-key checks (including the early `return []` of `generateSuggestions`), response `content` filtering and the removal of markdown fences. These are network glue. The parsed reply is the input of `Extraction.ProcessReply`, and `JSON.parse` failing is its `Unparsable` case.
- The suggestion fan-out after the top three is chosen: the percentage strings, the per-category tip requests and the default tips. It needs the network and formats text.
- `FileReader` and base64 handling: browser I/O.
- Record ids (`Date.now() + Math.random()`) and the re-dating of added records in `addExpenses`: nondeterministic and outside the core.
- All clock reads of one computation are the one instant `now`. The source re-reads `new Date()` for the current month (line 297), per record in the last-week filter (line 306), and per extracted item (line 468). Calls that straddle a millisecond or midnight boundary are not modelled.
- Time zones, daylight saving and parsing of date strings: every day has exactly 86400000 ms of local time. With daylight saving, a JavaScript day span can be an hour short of a whole day, and `Math.floor` then yields a different count.
- IEEE floating point: amounts, sums, the 0.3, 1.1 and 0.9 factors and the divisions are exact reals. NaN and infinities cannot arise, and nothing is claimed about rounding error.
- `parseFloat(exp.amount)`: modelled as the identity on the amount, which is already a number there.
- Lengths count characters, not UTF-16 code units, in `substring(0, 50)`.
- Null or missing record lists (`!expensesData`): a Dafny sequence is always present.
- Non-string record fields: records carry a category and a numeric amount, as the app creates them.
- Forecaster.ForecastManyDays: from three days on, it states the daily average as `PredictedDaily`, whose definition is the floored, slope-adjusted average. An expense-level restatement of that formula is not proved. `Forecaster.ThreeDaysNeverNegative` gives its consequence, that the average is never negative.
- Forecaster.TrendOf: the three-way "increasing iff …, else decreasing iff …" characterisation is its definition. The labels exclude each other because they are distinct constructors.
