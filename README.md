# Revenue chart, invoices reducer and invoice submission, in Dafny

This project models the core of a small invoicing dashboard (a React and
Redux client) and proves properties of the model.

**The revenue chart** (`TimeSeriesGraph.tsx`). `processData` turns the
fetched invoices into one `{date, revenue}` point per time bucket, with no
gaps. A bucket is a day, a week starting on Sunday, or a calendar month. It
works in four steps:

1. A `forEach` loop sums `quantity × price` over each invoice's details and
   adds that sum to a `Map` under the invoice's bucket key (`yyyy-MM-dd`
   or `yyyy-MM`).
2. The keys are sorted by `new Date(key)`.
3. A `while` loop walks from the first sorted key to the last, one day,
   week or month at a time.
4. At each step the walk pushes the formatted date with the revenue found
   under it, or 0 when the key was never seen.

The component also keeps the selected range and the chart data, which an
effect recomputes, and it formats the x-axis labels.

The model keeps the source's shape:

- `Accumulate`, `Walk`, `FillGaps` and `ProcessData` are methods with the
  source's loops.
- The component is the class `TimeSeriesView`.
- The per-invoice `reduce` and the label formatter are functions.

Each method is proved against a loop-free specification `Series` (module
`RevenueSeries`): one point per bucket from the earliest invoice's bucket to
the latest, each carrying the revenue accumulated under its key. The
lemmas about `Series` cover:

- the ends of the series;
- contiguity, one step between consecutive points, and the length in the
  daily case;
- no more points for a week or month chart than for the daily one;
- distinct keys, and an entry for every invoice key;
- the revenue of each point, 0 for a key no invoice has;
- conservation of the total revenue;
- independence from the order of the input.

The date-fns operations are modelled on an explicit proleptic Gregorian
calendar over day numbers (module `Calendar`). These are `startOfDay`,
`startOfWeek`, `startOfMonth`, `addDays`, `addWeeks`, `addMonths` and
`format` with the four patterns the component uses. The bucket structure
(module `Buckets`) has three parts:

- It numbers the buckets of each range.
- It proves that bucket keys read back with `new Date(key)`.
- It proves that each step of the walk moves to the next bucket, so the
  key rebuilt in the walk (line 69) is the key the loop accumulated under
  (lines 34-44).

**The invoices reducer** (`invoicesSlice.ts`):

- `Reduce` is the reducer on state values. `ReduceAll` runs a sequence of
  actions.
- The class `InvoicesState` holds the slice's fields. It has one method
  per reducer case, each stating which fields change and which stay, and
  a `Dispatch` method proved equal to `Reduce`.
- Lemmas about runs of actions show what the state remembers. An error,
  once set, is never cleared, so a success after a failure leaves a stale
  error in place.

**Invoice submission** (`useInvoiceSubmission.ts`). `Body` builds the POST
body, and `OutcomeOf` turns the server's reply into resolve or throw. The
class `Submission` holds the `isSubmitting` flag. Its methods `Start` and
`Finish` are the two halves of `submitInvoice` around the awaited request,
and `SubmitInvoice` runs both. The HTTP exchange is an input, the `Reply`.

Time is an integer number of milliseconds since 1970-01-01T00:00 in a
local zone of offset zero. Money is an integer number of the currency's
minor units.

## Model

| member | source | states |
|---|---|---|
| Calendar.MonthLength | src/components/Invoices/TimeSeriesGraph.tsx:83 | a month has 28 to 31 days, and 29 exactly when it is February of a leap year |
| Calendar.CivilFromDaysValid | src/components/Invoices/TimeSeriesGraph.tsx:31-44 | every day number is the day number of a valid calendar date, the one date-fns reads off an instant |
| Calendar.CivilRoundTrip | src/components/Invoices/TimeSeriesGraph.tsx:31-44 | converting a valid date to its day number and back gives the same date |
| Calendar.DaysFromCivilInjective | src/components/Invoices/TimeSeriesGraph.tsx:31-44 | two valid dates with the same day number are the same date |
| Calendar.YearStartClosedForm | src/components/Invoices/TimeSeriesGraph.tsx:31-44 | the first day of year y is 365(y-1) plus the Gregorian leap days before it, less 719162, the day count from 0001-01-01 to 1970-01-01 |
| Calendar.NextDateDays | src/components/Invoices/TimeSeriesGraph.tsx:77 | the calendar date after a valid date is valid and lies one day later |
| Calendar.PrevDateDays | src/components/Invoices/TimeSeriesGraph.tsx:77 | the calendar date before a valid date is valid and lies one day earlier |
| Calendar.Weekday | src/components/Invoices/TimeSeriesGraph.tsx:39 | a day's weekday is one of 0..6, with Sunday as 0 |
| Calendar.WeekdayNumbering | src/components/Invoices/TimeSeriesGraph.tsx:39 | 1970-01-04, a Sunday, has weekday 0, and each day's weekday is the one after the day before's, Saturday (6) being followed by Sunday (0) |
| Calendar.MonthOfIndex | src/components/Invoices/TimeSeriesGraph.tsx:42 | the month with a given month index is a valid date on the first |
| Calendar.MonthOfIndexOf | src/components/Invoices/TimeSeriesGraph.tsx:42 | month indexes number the months with no gaps or repeats: a date's month index gives back the first of its month |
| Calendar.MonthStartStep | src/components/Invoices/TimeSeriesGraph.tsx:83 | the first of the next month comes exactly one month length after the first of this one |
| Calendar.Midnight | src/components/Invoices/TimeSeriesGraph.tsx:36 | the midnight of day d lies on day d at time of day 0 |
| Calendar.InstantParts | src/components/Invoices/TimeSeriesGraph.tsx:31 | an instant is the midnight of its day plus its time of day, and the time of day is less than a day |
| Calendar.StartOfDay | src/components/Invoices/TimeSeriesGraph.tsx:36 | `startOfDay` gives midnight of the same day, at most one day before the instant |
| Calendar.StartOfWeek | src/components/Invoices/TimeSeriesGraph.tsx:39 | `startOfWeek` gives a Sunday midnight less than seven days before the instant |
| Calendar.StartOfMonth | src/components/Invoices/TimeSeriesGraph.tsx:42 | `startOfMonth` gives midnight on the first of the same month, and the instant lies within that month's length of it |
| Calendar.AddDays | src/components/Invoices/TimeSeriesGraph.tsx:77 | `addDays(t, n)` lies n days later at the same time of day |
| Calendar.AddWeeks | src/components/Invoices/TimeSeriesGraph.tsx:80 | `addWeeks(t, n)` lies 7n days later at the same time of day |
| Calendar.AddMonths | src/components/Invoices/TimeSeriesGraph.tsx:83 | `addMonths(t, n)` keeps the time of day and moves n months on, to the same day of the month or to the last day of a shorter month |
| Calendar.ShiftedDate | src/components/Invoices/TimeSeriesGraph.tsx:83 | the date n months on is valid, has month index n more, and keeps the day of the month unless the target month is shorter |
| DateFormat.PadDigitsValue | src/components/Invoices/TimeSeriesGraph.tsx:36 | reading the zero-padded decimal digits of n gives n back |
| DateFormat.PadDigitsLength | src/components/Invoices/TimeSeriesGraph.tsx:36 | a number below 10^w pads to exactly w digits |
| DateFormat.MonthName | src/components/Invoices/TimeSeriesGraph.tsx:95 | the `MMM` field is a three-letter month name |
| DateFormat.FourDigitYearBounds | src/components/Invoices/TimeSeriesGraph.tsx:65 | a day lies between 0001-01-01 and 9999-12-31 exactly when its year has four digits, 1 to 9999 |
| DateFormat.FormatYMD | src/components/Invoices/TimeSeriesGraph.tsx:36-39 | `format(t, 'yyyy-MM-dd')`, the date of t's day; ParseFormatYMD reads it back and KeyAtIsWalkKey relates it to the bucket keys |
| DateFormat.FormatYM | src/components/Invoices/TimeSeriesGraph.tsx:42 | `format(t, 'yyyy-MM')`, the year and month of t's day; ParseFormatYM reads it back |
| DateFormat.FormatMonDD | src/components/Invoices/TimeSeriesGraph.tsx:95-97 | `format(t, 'MMM dd')`, the month name and zero-padded day of t's day; FormatXAxisAt states it for every bucket |
| DateFormat.FormatMonYYYY | src/components/Invoices/TimeSeriesGraph.tsx:99 | `format(t, 'MMM yyyy')`, the month name and year of t's day; FormatXAxisAt states it for every bucket |
| DateFormat.ParseIsoDate | src/components/Invoices/TimeSeriesGraph.tsx:65-66 | on the two key shapes `format` produces, `yyyy-MM-dd` and `yyyy-MM`, `new Date(key)` gives a midnight; every other string is an Invalid Date (see Left out) |
| DateFormat.ParseFormatYMD | src/components/Invoices/TimeSeriesGraph.tsx:65-69 | a `yyyy-MM-dd` string of a day with a four-digit year reads back as that day's midnight |
| DateFormat.ParseFormatYM | src/components/Invoices/TimeSeriesGraph.tsx:65-69 | a `yyyy-MM` string of a day with a four-digit year reads back as the midnight on the first of its month |
| Buckets.IndexStartStep | src/components/Invoices/TimeSeriesGraph.tsx:75-85 | every bucket is at least one day long, and a week bucket is exactly seven days long |
| Buckets.IndexStartOrder | src/components/Invoices/TimeSeriesGraph.tsx:57-58 | buckets start in the order of their numbers, in both directions |
| Buckets.WeekIndex | src/components/Invoices/TimeSeriesGraph.tsx:39 | the week bucket of a day contains that day |
| Buckets.MonthIndexOfDay | src/components/Invoices/TimeSeriesGraph.tsx:42 | the month bucket of a day contains that day |
| Buckets.BucketIndex | src/components/Invoices/TimeSeriesGraph.tsx:34-44 | the bucket chosen for a day at any range contains that day |
| Buckets.BucketIndexUnique | src/components/Invoices/TimeSeriesGraph.tsx:34-44 | a day belongs to exactly one bucket: any bucket that contains it is the chosen one |
| Buckets.BucketIndexMonotone | src/components/Invoices/TimeSeriesGraph.tsx:34-44 | later days fall in the same or later buckets |
| Buckets.BucketsInOrder | src/components/Invoices/TimeSeriesGraph.tsx:34-44 | a bucket holding an earlier day is no later than a bucket holding a later day |
| Buckets.BucketIndexGap | src/components/Invoices/TimeSeriesGraph.tsx:34-44 | between two days the bucket number grows by no more than the day number, at any range |
| Buckets.BucketsGap | src/components/Invoices/TimeSeriesGraph.tsx:34-44 | a day of bucket i and a later day of bucket j are at least j - i days apart |
| Buckets.BucketStart | src/components/Invoices/TimeSeriesGraph.tsx:34-44 | each range's start of an instant (`startOfDay`, `startOfWeek`, `startOfMonth`) is the first midnight of the instant's bucket |
| Buckets.BucketKey | src/components/Invoices/TimeSeriesGraph.tsx:34-44 | the key an invoice created at t is accumulated under: the format of its day's, week's or month's start; BucketKeyIsKeyAt, BucketKeyMatches and WalkRebuildsKey characterise it |
| Buckets.WalkKey | src/components/Invoices/TimeSeriesGraph.tsx:69 | the key the walk formats from its current instant, `yyyy-MM` at range monthly and `yyyy-MM-dd` otherwise; KeyAtIsWalkKey and WalkRebuildsKey characterise it |
| Buckets.Step | src/components/Invoices/TimeSeriesGraph.tsx:75-85 | the walk's step, `addDays`, `addWeeks` or `addMonths` by one; StepAt and StepLater characterise it |
| Buckets.KeyAtIsWalkKey | src/components/Invoices/TimeSeriesGraph.tsx:69 | the walk's format of a bucket's first midnight is that bucket's key |
| Buckets.BucketKeyIsKeyAt | src/components/Invoices/TimeSeriesGraph.tsx:34-44 | an invoice's accumulation key is the key of the bucket of its creation day |
| Buckets.ParseKeyAt | src/components/Invoices/TimeSeriesGraph.tsx:65-66 | a supported bucket's key reads back with `new Date` as the bucket's first midnight |
| Buckets.KeyAtInjective | src/components/Invoices/TimeSeriesGraph.tsx:50-54 | two supported buckets with the same key are the same bucket |
| Buckets.BucketKeyMatches | src/components/Invoices/TimeSeriesGraph.tsx:30-54 | an invoice's key equals a supported bucket's key exactly when the invoice falls in that bucket |
| Buckets.SupportedBetween | src/components/Invoices/TimeSeriesGraph.tsx:65-86 | every bucket between two supported buckets is supported |
| Buckets.StepAt | src/components/Invoices/TimeSeriesGraph.tsx:75-85 | one step of the walk from a bucket's first midnight reaches the next bucket's first midnight |
| Buckets.StepLater | src/components/Invoices/TimeSeriesGraph.tsx:75-85 | every step of the walk moves to a later instant, so the loop ends |
| Buckets.KeyStep | src/components/Invoices/TimeSeriesGraph.tsx:65-85 | the keys of two consecutive supported buckets read back as one instant and the step after it |
| Buckets.WalkRebuildsKey | src/components/Invoices/TimeSeriesGraph.tsx:34-69 | the key rebuilt in the walk (line 69) equals the accumulation key: reading a key gives its bucket's start, and formatting that start gives the key back |
| RevenueMap.LineAmount | src/components/Invoices/TimeSeriesGraph.tsx:47 | one detail's `quantity * price`; InvoiceRevenue sums it and InvoiceRevenueNonNegative bounds it |
| RevenueMap.InvoiceRevenue | src/components/Invoices/TimeSeriesGraph.tsx:46-48 | an invoice with no details has revenue 0 |
| RevenueMap.InvoiceRevenueAppend | src/components/Invoices/TimeSeriesGraph.tsx:46-48 | the revenue of the details of two invoices put together is the sum of their revenues |
| RevenueMap.InvoiceRevenueFromFront | src/components/Invoices/TimeSeriesGraph.tsx:46-48 | summing `quantity * price` from the right gives the same total as the left fold |
| RevenueMap.InvoiceRevenueNonNegative | src/components/Invoices/TimeSeriesGraph.tsx:46-48 | with non-negative quantities and prices an invoice's revenue is non-negative |
| RevenueMap.Entries | src/components/Invoices/TimeSeriesGraph.tsx:30-55 | there is one entry per invoice |
| RevenueMap.EntryFields | src/components/Invoices/TimeSeriesGraph.tsx:30-48 | entry p has invoice p's bucket, key and revenue |
| RevenueMap.EntriesPermutation | src/components/Invoices/TimeSeriesGraph.tsx:30-55 | reordering the invoices reorders their entries |
| RevenueMap.TotalAmountOfEntries | src/components/Invoices/TimeSeriesGraph.tsx:46-54 | the entries taken together carry all the invoices' revenue |
| RevenueMap.ObservedKeysMember | src/components/Invoices/TimeSeriesGraph.tsx:50-54 | a key is in the map exactly when some entry has it |
| RevenueMap.KeyRevenueUnobserved | src/components/Invoices/TimeSeriesGraph.tsx:72 | a key no entry has accumulates 0, the value of `get(key) \|\| 0` |
| RevenueMap.KeyRevenueAppend | src/components/Invoices/TimeSeriesGraph.tsx:50-54 | the revenue under a key over two runs of entries is the sum over each |
| RevenueMap.KeyRevenueSnoc | src/components/Invoices/TimeSeriesGraph.tsx:50-54 | one more entry adds its amount to its own key and to no other |
| RevenueMap.KeyRevenuePermutation | src/components/Invoices/TimeSeriesGraph.tsx:50-54 | the revenue under a key does not depend on the order of the entries |
| RevenueMap.ContributionAt | src/components/Invoices/TimeSeriesGraph.tsx:30-54 | an invoice adds its revenue to exactly one supported bucket key, the key of its own bucket, which depends only on its creation time and the range |
| RevenueMap.EntriesSnoc | src/components/Invoices/TimeSeriesGraph.tsx:30-55 | the entries of the first i + 1 invoices are those of the first i followed by invoice i's entry |
| RevenueMap.RevenueMapSnoc | src/components/Invoices/TimeSeriesGraph.tsx:50-54 | the map after entry i adds its amount to its key, or sets the key when it is new and then lists it last |
| RevenueMap.AccumulatedEmpty | src/components/Invoices/TimeSeriesGraph.tsx:28 | the empty map is the state before any invoice |
| RevenueMap.AccumulateStep | src/components/Invoices/TimeSeriesGraph.tsx:50-54 | both branches of the `has` test keep the map's invariant: its keys are the entries' keys, listed once each, each mapped to its accumulated revenue |
| RevenueMap.AccumulateUpdate | src/components/Invoices/TimeSeriesGraph.tsx:50-51 | the `has` branch: adding an entry's amount to a key already in the map keeps the invariant |
| RevenueMap.AccumulateInsert | src/components/Invoices/TimeSeriesGraph.tsx:52-53 | the other branch: setting a new key, listed last, keeps the invariant |
| RevenueMap.AccumulatedOf | src/components/Invoices/TimeSeriesGraph.tsx:50-57 | the map and the key order after all entries satisfy that invariant |
| RevenueMap.Lookup | src/components/Invoices/TimeSeriesGraph.tsx:72 | `revenueMap.get(key) \|\| 0`, the value under a key or 0; LookupRevenue states what it gives on the accumulated map |
| RevenueMap.LookupRevenue | src/components/Invoices/TimeSeriesGraph.tsx:72 | looking a key up in the map gives the revenue accumulated under it, and 0 for a key never seen |
| Seqs.SortBy | src/components/Invoices/TimeSeriesGraph.tsx:57-58 | `sort` by a rank, as a stable insertion sort; SortBySorted and SortByPermutation characterise it |
| Seqs.SortBySorted | src/components/Invoices/TimeSeriesGraph.tsx:57-58 | the sorted keys are in order of rank |
| Seqs.SortByPermutation | src/components/Invoices/TimeSeriesGraph.tsx:57-58 | the sorted keys are a reordering of the map's keys |
| Seqs.MapPermutation | src/components/Invoices/TimeSeriesGraph.tsx:30 | reordering a sequence reorders its image under a function |
| RevenueSeries.MinBucket | src/components/Invoices/TimeSeriesGraph.tsx:57-63 | the earliest bucket is no later than any entry's bucket |
| RevenueSeries.MaxBucket | src/components/Invoices/TimeSeriesGraph.tsx:57-63 | the latest bucket is no earlier than any entry's bucket |
| RevenueSeries.BucketsAttained | src/components/Invoices/TimeSeriesGraph.tsx:57-63 | the earliest and the latest buckets each hold some entry |
| RevenueSeries.MinMaxPermutation | src/components/Invoices/TimeSeriesGraph.tsx:50-58 | the earliest and latest buckets depend only on which entries there are, not on their order |
| RevenueSeries.PointsAt | src/components/Invoices/TimeSeriesGraph.tsx:70-73 | the k-th pushed point is the point of the k-th bucket from the start |
| RevenueSeries.PointsSnoc | src/components/Invoices/TimeSeriesGraph.tsx:70-73 | one more step pushes the point of the next bucket at the end |
| RevenueSeries.SeriesOfEmpty | src/components/Invoices/TimeSeriesGraph.tsx:60-89 | the series is empty exactly when there are no entries |
| RevenueSeries.SeriesOfAt | src/components/Invoices/TimeSeriesGraph.tsx:68-86 | the series has one point per bucket from the earliest to the latest, and point k is the k-th bucket's |
| RevenueSeries.SeriesOfEnds | src/components/Invoices/TimeSeriesGraph.tsx:57-68 | the first point has the earliest bucket's key and the last point the latest bucket's |
| RevenueSeries.SeriesOfBounds | src/components/Invoices/TimeSeriesGraph.tsx:57-68 | every entry's bucket lies between the first and the last point's, and the ends carry those entries' keys |
| RevenueSeries.SeriesOfDistinct | src/components/Invoices/TimeSeriesGraph.tsx:68-86 | the dates of the points are pairwise distinct |
| RevenueSeries.SeriesOfRevenue | src/components/Invoices/TimeSeriesGraph.tsx:70-73 | each point's revenue is the revenue accumulated under its date, 0 for a date no entry has |
| RevenueSeries.SeriesOfCovers | src/components/Invoices/TimeSeriesGraph.tsx:50-86 | every entry's key is the date of exactly one point, the point of its bucket |
| RevenueSeries.PointsSumTotal | src/components/Invoices/TimeSeriesGraph.tsx:65-86 | a window of buckets with distinct keys that covers every entry carries all their revenue |
| RevenueSeries.SeriesOfConservation | src/components/Invoices/TimeSeriesGraph.tsx:50-86 | the revenues of the points add up to the revenue of all entries |
| RevenueSeries.SeriesOfPermutation | src/components/Invoices/TimeSeriesGraph.tsx:30-86 | the series does not depend on the order of the entries |
| RevenueSeries.BucketPoint | src/components/Invoices/TimeSeriesGraph.tsx:69-73 | a point carries its bucket's key and the revenue under that key |
| RevenueSeries.EntriesKeyed | src/components/Invoices/TimeSeriesGraph.tsx:34-44 | every invoice's entry carries the key of its own bucket |
| RevenueSeries.BucketKeysInjective | src/components/Invoices/TimeSeriesGraph.tsx:68-86 | a window of supported buckets has distinct keys |
| RevenueSeries.Series | src/components/Invoices/TimeSeriesGraph.tsx:27-90 | processData's result stated without loops: the series of the invoices' entries with the bucket keys of the range; the lemmas SeriesOf* above and Series* below characterise it |
| RevenueSeries.SeriesConservation | src/components/Invoices/TimeSeriesGraph.tsx:46-86 | the chart's revenues add up to the revenue of all invoices: nothing is lost and nothing is counted twice |
| RevenueSeries.SeriesPermutation | src/components/Invoices/TimeSeriesGraph.tsx:30-86 | the chart does not depend on the order in which the invoices arrive |
| RevenueSeries.SeriesCovers | src/components/Invoices/TimeSeriesGraph.tsx:30-86 | every invoice's key is the date of exactly one point, the point of its bucket |
| RevenueSeries.BucketSeriesAt | src/components/Invoices/TimeSeriesGraph.tsx:65-73 | point k carries the key of the k-th bucket after the earliest |
| RevenueSeries.SeriesNeighbours | src/components/Invoices/TimeSeriesGraph.tsx:68-86 | points k and k + 1 carry the keys of two consecutive buckets of the window |
| RevenueSeries.SeriesDailyLength | src/components/Invoices/TimeSeriesGraph.tsx:68-86 | at range daily the chart has one point per day from the earliest invoice's day to the latest's |
| RevenueSeries.SeriesCoarser | src/components/Invoices/TimeSeriesGraph.tsx:34-44 | for the same invoices the weekly and the monthly chart have no more points than the daily one |
| RevenueSeries.SeriesEnds | src/components/Invoices/TimeSeriesGraph.tsx:57-68 | the first point carries the earliest invoice's key and the last point the latest invoice's; every invoice's bucket lies between |
| TimeSeriesGraph.KeyTime | src/components/Invoices/TimeSeriesGraph.tsx:58 | the rank `new Date(key).getTime()`; KeyTimeAt and KeyTimeOrder characterise it on supported keys |
| TimeSeriesGraph.KeyTimeAt | src/components/Invoices/TimeSeriesGraph.tsx:58 | a supported bucket's key ranks as its first midnight |
| TimeSeriesGraph.KeyTimeOrder | src/components/Invoices/TimeSeriesGraph.tsx:57-58 | supported keys rank in the order of their buckets, in both directions |
| TimeSeriesGraph.SeriesSpacing | src/components/Invoices/TimeSeriesGraph.tsx:65-86 | consecutive points of the chart are one step apart: the next point's date reads back as the step after this point's date, which is strictly later, so the dates increase |
| TimeSeriesGraph.KeysStep | src/components/Invoices/TimeSeriesGraph.tsx:65-85 | the keys of consecutive supported buckets rank as an instant and the step after it |
| TimeSeriesGraph.Accumulate | src/components/Invoices/TimeSeriesGraph.tsx:28-55 | the loop builds exactly the accumulated map of the invoices' entries and lists its keys in insertion order |
| TimeSeriesGraph.AccumulatePush | src/components/Invoices/TimeSeriesGraph.tsx:33-54 | one pass of the loop body on invoice i turns the map and key order of the invoices before it into those of the invoices up to it |
| TimeSeriesGraph.FilledAt | src/components/Invoices/TimeSeriesGraph.tsx:68-73 | the points for buckets lo..hi number hi - lo + 1, and point k has bucket lo + k's key and the value looked up under it |
| TimeSeriesGraph.FilledCons | src/components/Invoices/TimeSeriesGraph.tsx:68-73 | the points for lo..hi are bucket lo's point followed by those for lo + 1..hi |
| TimeSeriesGraph.FillGaps | src/components/Invoices/TimeSeriesGraph.tsx:61-87 | a first or last key that does not read back gives no points; when they are the keys of supported buckets lo <= hi, the walk pushes the point of every bucket from lo to hi |
| TimeSeriesGraph.StepAscending | src/components/Invoices/TimeSeriesGraph.tsx:75-85 | every range's step moves forward |
| TimeSeriesGraph.Walk | src/components/Invoices/TimeSeriesGraph.tsx:68-86 | the loop pushes exactly the points of the walk from the current date to the end date |
| TimeSeriesGraph.WalkPush | src/components/Invoices/TimeSeriesGraph.tsx:68-86 | one pass of the loop body keeps the points pushed so far followed by the rest of the walk equal to the whole walk |
| TimeSeriesGraph.WalkFromStarts | src/components/Invoices/TimeSeriesGraph.tsx:65-86 | a walk between two of the instants a step visits in turn pushes, for each of them, its key and the value looked up under it |
| TimeSeriesGraph.BucketStepping | src/components/Invoices/TimeSeriesGraph.tsx:75-85 | stepping from each bucket's first midnight reaches the next bucket's |
| TimeSeriesGraph.BucketWalkKeys | src/components/Invoices/TimeSeriesGraph.tsx:69 | the walk formats each bucket's first midnight as that bucket's key |
| TimeSeriesGraph.WalkFromBucket | src/components/Invoices/TimeSeriesGraph.tsx:65-86 | the walk from bucket lo's first midnight to bucket hi's visits every bucket from lo to hi, in order, and pushes its key and looked-up revenue |
| TimeSeriesGraph.SortedEnds | src/components/Invoices/TimeSeriesGraph.tsx:57-63 | when ranks grow with buckets, the first sorted key is the earliest bucket's and the last is the latest bucket's |
| TimeSeriesGraph.SortedKeys | src/components/Invoices/TimeSeriesGraph.tsx:57-58 | the sorted keys are exactly the entries' keys, and there are some exactly when there are entries |
| TimeSeriesGraph.SortedNonEmpty | src/components/Invoices/TimeSeriesGraph.tsx:57-61 | some key is sorted exactly when some invoice was accumulated |
| TimeSeriesGraph.FilledIsSeries | src/components/Invoices/TimeSeriesGraph.tsx:70-73 | looking the keys of the earliest-to-latest buckets up in the accumulated map gives the series |
| TimeSeriesGraph.SortedSeries | src/components/Invoices/TimeSeriesGraph.tsx:57-87 | for keyed entries whose keys rank with their buckets, the sorted keys run from the earliest to the latest bucket's key, and the walk between them pushes the series |
| TimeSeriesGraph.EntriesRanked | src/components/Invoices/TimeSeriesGraph.tsx:57-58 | the keys of supported invoices rank in the order of their buckets |
| TimeSeriesGraph.ProcessDataSeries | src/components/Invoices/TimeSeriesGraph.tsx:57-89 | some key is sorted exactly when there are invoices; the walk of supported invoices runs from the earliest to the latest bucket and pushes the series |
| TimeSeriesGraph.ProcessData | src/components/Invoices/TimeSeriesGraph.tsx:27-90 | processData returns no points for no invoices, and for supported invoices the series: gap-free, ordered (SeriesSpacing), with every invoice's revenue in its bucket |
| TimeSeriesGraph.FormatXAxis | src/components/Invoices/TimeSeriesGraph.tsx:92-101 | a tick has a label exactly when its key reads back as a date |
| TimeSeriesGraph.FormatXAxisAt | src/components/Invoices/TimeSeriesGraph.tsx:92-101 | a bucket's tick is labelled `MMM dd`, `Week of MMM dd` or `MMM yyyy` of its first midnight |
| TimeSeriesGraph.TimeSeriesView.constructor | src/components/Invoices/TimeSeriesGraph.tsx:13-14 | the view starts at range daily with no chart data |
| TimeSeriesGraph.TimeSeriesView.Refresh | src/components/Invoices/TimeSeriesGraph.tsx:20-25 | the effect keeps the old chart data when there are no invoices and otherwise sets it to processData's result; the range is unchanged |
| TimeSeriesGraph.TimeSeriesView.SelectRange | src/components/Invoices/TimeSeriesGraph.tsx:108-125 | a range button sets the range and recomputes the chart for it |
| Wrappers.OrElse | src/features/invoices/invoicesSlice.ts:85 | `message \|\| fallback` keeps a present, non-empty message and otherwise gives the fallback |
| InvoicesSlice.RejectionError | src/features/invoices/invoicesSlice.ts:83-97 | a rejection's error text is never empty |
| InvoicesSlice.Reduce | src/features/invoices/invoicesSlice.ts:73-97 | every case sets the status from the action's kind; a pending action changes nothing else; a rejection records its error and keeps the data; `items` and `meta` change only on `fetchInvoices.fulfilled`, `allInvoices` only on `fetchAllInvoices.fulfilled`, and the error only on a rejection |
| InvoicesSlice.ReduceAll | src/features/invoices/invoicesSlice.ts:73-97 | the slice after a run of actions dispatched in order; RunStatus, ItemsFromLastPage, AllInvoicesFromLast, ErrorFromLastRejection and ErrorSticky characterise it |
| InvoicesSlice.StatusKinds | src/features/invoices/invoicesSlice.ts:73-97 | the status is loading, succeeded or failed exactly after a pending, fulfilled or rejected action, and never idle again |
| InvoicesSlice.RunStatus | src/features/invoices/invoicesSlice.ts:73-97 | after a run of actions the status is the one its last action leaves |
| InvoicesSlice.ItemsFromLastPage | src/features/invoices/invoicesSlice.ts:78-82 | `items` and `meta` are those of the last successful page fetch, whatever followed it |
| InvoicesSlice.ItemsUntouched | src/features/invoices/invoicesSlice.ts:73-97 | without a successful page fetch, `items` and `meta` stay as they were |
| InvoicesSlice.AllInvoicesFromLast | src/features/invoices/invoicesSlice.ts:90-93 | `allInvoices` is the payload of the last successful fetch of all invoices |
| InvoicesSlice.ErrorFromLastRejection | src/features/invoices/invoicesSlice.ts:83-97 | the error is the one the last rejection recorded, however many successes came after it |
| InvoicesSlice.ErrorSticky | src/features/invoices/invoicesSlice.ts:73-97 | once an error is set, no run of actions resets it to null |
| InvoicesSlice.StaleError | src/features/invoices/invoicesSlice.ts:75-86 | a failed page fetch, then a retry and a success, ends with status succeeded and the first failure's error still set |
| InvoicesSlice.InvoicesState.constructor | src/features/invoices/invoicesSlice.ts:40-51 | the initial state: no items, no invoices, status idle, error null, meta {0, 10, 1, 1} |
| InvoicesSlice.InvoicesState.FetchInvoicesPending | src/features/invoices/invoicesSlice.ts:75-77 | status becomes loading; every other field is unchanged |
| InvoicesSlice.InvoicesState.FetchInvoicesFulfilled | src/features/invoices/invoicesSlice.ts:78-82 | status becomes succeeded and `items` and `meta` come from the payload; `allInvoices` and `error` are unchanged |
| InvoicesSlice.InvoicesState.FetchInvoicesRejected | src/features/invoices/invoicesSlice.ts:83-86 | status becomes failed and the error is the message or 'Failed to fetch invoices'; the data fields are unchanged |
| InvoicesSlice.InvoicesState.FetchAllInvoicesPending | src/features/invoices/invoicesSlice.ts:87-89 | status becomes loading; every other field is unchanged |
| InvoicesSlice.InvoicesState.FetchAllInvoicesFulfilled | src/features/invoices/invoicesSlice.ts:90-93 | status becomes succeeded and `allInvoices` is the payload; `items`, `meta` and `error` are unchanged |
| InvoicesSlice.InvoicesState.FetchAllInvoicesRejected | src/features/invoices/invoicesSlice.ts:94-97 | status becomes failed and the error is the message or 'Failed to fetch all invoices'; the data fields are unchanged |
| InvoicesSlice.InvoicesState.Dispatch | src/features/invoices/invoicesSlice.ts:73-97 | dispatching an action updates the slice as Reduce says |
| InvoiceSubmission.DetailOf | src/hooks/useInvoiceSubmission.ts:22-25 | a sent line keeps only the row's quantity and product id |
| InvoiceSubmission.Details | src/hooks/useInvoiceSubmission.ts:20-25 | there are no more lines than rows, and no line has product id 0 |
| InvoiceSubmission.Body | src/hooks/useInvoiceSubmission.ts:15-26 | `customer` is `customer_name`, `salesperson` is `salesperson_name`, `payment_type` and `notes` are copied, and `details` is built from the rows |
| InvoiceSubmission.DetailsAppend | src/hooks/useInvoiceSubmission.ts:20-22 | the filter keeps the form's order: the lines of two runs of rows are the first run's lines followed by the second's |
| InvoiceSubmission.DetailsSingle | src/hooks/useInvoiceSubmission.ts:20-25 | a single row is sent exactly when its product id is not 0 |
| InvoiceSubmission.DetailsMember | src/hooks/useInvoiceSubmission.ts:20-25 | a line is sent exactly when some row with a non-zero product id has its quantity and product id |
| InvoiceSubmission.DetailsLength | src/hooks/useInvoiceSubmission.ts:20-22 | the number of lines is the number of rows with a non-zero product id, and equals the number of rows exactly when every row has one |
| InvoiceSubmission.DetailsIgnoreNamePrice | src/hooks/useInvoiceSubmission.ts:22-25 | names and prices are dropped: rows with the same product ids and quantities give the same lines |
| InvoiceSubmission.BodyIgnoresDate | src/hooks/useInvoiceSubmission.ts:15-26 | the form's date is not sent |
| InvoiceSubmission.OutcomeOf | src/hooks/useInvoiceSubmission.ts:29-32 | the call resolves exactly on an ok response; a non-ok response throws the server's message, or 'Failed to create invoice' when it is absent or empty |
| InvoiceSubmission.Submission.constructor | src/hooks/useInvoiceSubmission.ts:5 | `isSubmitting` starts false |
| InvoiceSubmission.Submission.Start | src/hooks/useInvoiceSubmission.ts:7-27 | `isSubmitting` is true when the request is sent, and the body sent is Body(data) |
| InvoiceSubmission.Submission.Finish | src/hooks/useInvoiceSubmission.ts:29-35 | after the reply `isSubmitting` is false on every path, and the outcome is OutcomeOf(reply) |
| InvoiceSubmission.Submission.SubmitInvoice | src/hooks/useInvoiceSubmission.ts:7-36 | the flag is up while the request is awaited and down once the call returns or throws; the body and the outcome are as above |

## Left out

- Time zones and daylight saving. The local zone is taken to have offset zero. The source reads keys with `new Date('yyyy-MM-dd')`, which parses as UTC, while `format` works in local time; at a non-zero offset the two disagree and keys can shift.
- Parsing of `createdAt`. It is an already-decoded instant in milliseconds; ISO 8601 string parsing is not modelled.
- TimeSeriesGraph.ProcessData: its result is stated only when every invoice's bucket starts in the years 0001 to 9999 (`AllSupported`). Only for those years does a key read back through `new Date(key)`. Outside them the sort and the walk are modelled but not characterised.
- TimeSeriesGraph.TimeSeriesView.Refresh: the same restriction to `AllSupported` invoices, inherited from ProcessData.
- TimeSeriesGraph.TimeSeriesView.SelectRange: the same restriction to `AllSupported` invoices.
- DateFormat.ParseIsoDate: the model reads only the two key shapes the component's `format` produces, `yyyy-MM-dd` and `yyyy-MM`, gives each its UTC midnight, and treats every other string as an Invalid Date. JavaScript's `new Date` also accepts other shapes (`"2024"`, `"2024-01-01T00:00"`), and some engines roll an impossible day such as `"2024-02-30"` over into the next month. Under `AllSupported` every key the component parses is one it formatted for a bucket in the years 0001 to 9999, so it has one of the two shapes and a real date.
- TimeSeriesGraph.KeyTime: a key that does not read back ranks as 0, where the source's comparator would see NaN. Such keys do not arise under `AllSupported`.
- `Array.prototype.sort` is modelled as a stable insertion sort by rank. Under `AllSupported` the ranks of distinct keys are distinct, so any correct sort gives the same order.
- Floating point. Quantities, prices and revenues are integers (minor units). The `toFixed(2)` of the tooltip is presentation only.
- InvoiceSubmission.DetailOf: `Number(p.quantity)` is taken as the identity, since the form type declares the quantity a number. Coercion from strings is not modelled.
- The fetch on mount (TimeSeriesGraph.tsx:16-18), the axios calls of the two thunks (invoicesSlice.ts:53-67) and the POST of the submission. These are I/O. The thunks' results become action payloads, and the server's reply becomes the `Reply` input; a reply whose JSON body cannot be parsed is not modelled.
- The Redux store, selectors and Immer drafts. The reducer cases are methods that update the slice's fields in place.
- React re-rendering and effect scheduling. The effect at TimeSeriesGraph.tsx:20-25 is an explicit `Refresh` call after the invoices or the range change. `setIsSubmitting` updates the flag at once rather than at the next render.
- InvoiceSubmission.Submission.SubmitInvoice: the awaited request is the given reply. Two overlapping submissions, which the hook does not prevent, are not modelled.
- JSX and rendering: the chart, the tooltip and the button styling (`variant`). The buttons' `onClick` handlers are `SelectRange`.
- Drill-down: TimeSeriesGraph.tsx has no bucket selection, no back navigation and no per-bucket invoice lists; its points carry only a date and a revenue, so none is modelled.
- The form components, the product search and the duplicate payload builder in src/components/invoice-form.tsx. These are UI glue outside the modelled core.
