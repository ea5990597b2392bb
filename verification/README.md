# Trinkgeld-Tracker statistics, in Dafny

Trinkgeld-Tracker is a small web app where a waiter records shifts. Each
shift has a date, a tip amount (`betrag`), an early/late type (`schicht`),
an optional number of colleagues (`mitarbeiter`), an optional revenue
(`umsatz`) and an optional note (`notiz`). This project models the parts
of the app that compute things, and proves what they promise:

- **The statistics service** (`statisticsService.ts`). It covers:
  - rounding to cents and to tenths;
  - the summary of a list of shifts (`calculateStats`): totals, averages, best and worst shift;
  - the seven Monday-to-Sunday weekday buckets (`groupByWeekday`);
  - the percentage change between two periods (`calcChange`);
  - the month and week filters.
- **The statistics page** (`StatsPage.tsx`). For "this week", "this month" or "everything", it picks the current and the previous window of shifts. It summarises and compares the two windows, and splits the current window into early and late shifts.
- **The history page** (`HistoryPage.tsx`). This is the list pipeline: copy the loaded shifts, filter them by type and by a search text, then sort the copy in place, descending, by date, amount or €/hour.
- **The CSV export** (`ProfilePage.tsx`). It writes a header plus one `;`-separated row per shift, joined by line feeds, behind a byte-order mark.

Modules:

| file | module | contents |
|---|---|---|
| `wrappers.dfy` | `Wrappers` | `Option` |
| `money.dfy` | `Money` | `Math.round(x * s) / s` on reals and its error bounds |
| `seqs.dfy` | `Seqs` | `filter`, `map`, the summing `reduce`, `Math.max`/`Math.min` of a list |
| `calendar.dfy` | `Calendar` | the proleptic Gregorian calendar as day numbers; the week start of `filterByWeek` |
| `types.dfy` | `Types` | the shift record |
| `statistics.dfy` | `Statistics` | the statistics service |
| `stats_page.dfy` | `StatsPage` | the statistics page's derived data |
| `text.dfy` | `Text` | `toLowerCase`, `trim`, `includes`, `join` and splitting |
| `history_page.dfy` | `HistoryPage` | the history list's filter-and-sort pipeline, with an in-place insertion sort on an array |
| `profile_export.dfy` | `ProfileExport` | the CSV text |

How the model represents the app's values:

- **Amounts are `real`s.** `round` is `Floor(x * 100 + 1/2) / 100`, which is `Math.round`'s half-up rounding.
- **A calendar date is a `Date(year, month0, day)` with a 0-based month.**
  - Every JavaScript `Date` the core reads is read to the day, so it is modelled by its day number. The day number counts days since 0001-01-01, which was a Monday.
  - The weekday of a day is its day number mod 7, with 0 = Monday. `getDay` (0 = Sunday) is a separate function, so the source's week-start formula is modelled exactly as written.
  - A shift's date is a `Calendar.CalendarDate`, a date that exists in the calendar.
  - One calendar serves weekday bucketing, both filters, and sorting by date.
- **Clock readings are parameters.**
  - `new Date()` on the statistics page is the `now` parameter of `StatsPage.PeriodData`.
  - The `Date` argument of `filterByWeek` is a day number.
- **Locale formatting is a parameter.**
  - `formatDate` and `getWeekday`, used by the history search, are function parameters.
  - So is JavaScript's number-to-text conversion, used when the CSV is joined.
- **Loading states are `Option`s.** A list not loaded yet (`shifts` undefined) is `None`.

Three behaviours of the code that a reader might not expect, each shown by a lemma:

- **Bucket totals need not add up to the rounded tip total.** `groupByWeekday` rounds each bucket's total on its own (`statisticsService.ts:52`), so the seven totals need not add up to the rounded tip total of `calculateStats`.
  - `Statistics.BucketTotalsCanMissRoundedTotal` exhibits it: two half-cent tips on a Monday and a Tuesday give buckets of 0.01 each, against a rounded total of 0.01.
  - `Statistics.BucketTotalsNearTotal` proves the bound that does hold: the bucket totals are within 3.5 cents of the exact total.
- **The direction comes from the unrounded change.** `calcChange` rounds the percentage to one decimal but takes the direction from the unrounded change (`statisticsService.ts:64-65`), so a 0.01% rise shows as `0.0` with direction up (`Statistics.TinyRiseShowsZeroUp`).
- **The tip rate comes from the totals.** `avgTipRate` divides the tip total by the revenue total (`statisticsService.ts:31`). It is not the mean of the per-shift rates: tips of 10 on 100 and 10 on 50 give 13.33%, not 15% (`Statistics.TipRateFromTotals`). The per-shift `euro_pro_stunde` and `tip_prozent` arrive ready-made with each record and are plain fields here.

## Model

| member | source | states |
|---|---|---|
| Money.RoundTo | trinkgeld-tracker/src/services/statisticsService.ts:5-7 | `Math.round(x * s) / s` with `Math.round` as `floor(y + 1/2)`; no contract of its own, described by `RoundError`, `RoundGrid`, `RoundMonotone` and `RoundIdempotent` |
| Money.Round2 | trinkgeld-tracker/src/services/statisticsService.ts:5-7 | the result is a whole number of cents, more than 0.005 below and at most 0.005 above the value, which by `Round2Unique` is half-up rounding |
| Money.Round1 | trinkgeld-tracker/src/services/statisticsService.ts:64 | the result is a whole number of tenths, more than 0.05 below and at most 0.05 above the value, which by `Round1Unique` is half-up rounding |
| Money.Round2Unique | trinkgeld-tracker/src/services/statisticsService.ts:5-7 | the only whole number of cents in `(x − 0.005, x + 0.005]` is `round(x)` |
| Money.Round1Unique | trinkgeld-tracker/src/services/statisticsService.ts:64 | the only whole number of tenths in `(x − 0.05, x + 0.05]` is the rounded change |
| Money.RoundGrid | trinkgeld-tracker/src/services/statisticsService.ts:5-7 | `Math.round(x * s) / s` times `s` is a whole number |
| Money.RoundError | trinkgeld-tracker/src/services/statisticsService.ts:5-7 | `Math.round(x * s) / s` lies in `(x − 0.5/s, x + 0.5/s]` for every scale `s` |
| Money.RoundMonotone | trinkgeld-tracker/src/services/statisticsService.ts:5-7 | rounding never reverses the order of two values |
| Money.RoundKeepsSign | trinkgeld-tracker/src/services/statisticsService.ts:5-7 | rounding maps 0 to 0, non-negative values to non-negative ones and non-positive to non-positive |
| Money.RoundIdempotent | trinkgeld-tracker/src/services/statisticsService.ts:5-7 | rounding an already rounded value changes nothing |
| Money.MeanBetween | trinkgeld-tracker/src/services/statisticsService.ts:9-12 | a total between `n·lo` and `n·hi` has its mean between `lo` and `hi` |
| Money.DivTimesBack | src/pages/StatsPage.tsx:51-52 | a quotient times its positive divisor gives back the dividend |
| Seqs.KeptIndices | trinkgeld-tracker/src/services/statisticsService.ts:22 | the positions a filter keeps are strictly increasing, in range, satisfy the test, and include every position that satisfies it |
| Seqs.Filter | trinkgeld-tracker/src/services/statisticsService.ts:22 | `filter` returns exactly the elements satisfying the test, in their original order |
| Seqs.FilterMembers | trinkgeld-tracker/src/services/statisticsService.ts:22 | an element survives a filter if and only if it is in the input and satisfies the test |
| Seqs.FilterSnoc | trinkgeld-tracker/src/services/statisticsService.ts:22 | filtering a list extended by one element extends the result by that element exactly when it passes |
| Seqs.FilterSubMultiset | src/pages/HistoryPage.tsx:26-33 | a filter invents and duplicates nothing: its multiset is contained in the input's, its length at most the input's |
| Seqs.Map | trinkgeld-tracker/src/services/statisticsService.ts:21 | `map` keeps the length and applies the function at every index |
| Seqs.MapSnoc | trinkgeld-tracker/src/services/statisticsService.ts:21 | mapping a list extended by one element appends that element's image |
| Seqs.Sum | trinkgeld-tracker/src/services/statisticsService.ts:14-16 | `reduce((a, b) => a + b, 0)` as a left fold; no contract of its own, described by `SumSnoc`, `SumAppend`, `SumPositive` and `SumBounds` |
| Seqs.SumSnoc | trinkgeld-tracker/src/services/statisticsService.ts:14-16 | the running sum adds the last element last |
| Seqs.SumAppend | trinkgeld-tracker/src/services/statisticsService.ts:14-16 | the sum of a concatenation is the sum of the sums |
| Seqs.SumPositive | trinkgeld-tracker/src/services/statisticsService.ts:23 | a sum of positive values is 0 for the empty list and positive otherwise |
| Seqs.SumBounds | trinkgeld-tracker/src/services/statisticsService.ts:14-16 | a sum of `n` values between `lo` and `hi` lies between `n·lo` and `n·hi`, by induction |
| Seqs.MeanOfBounded | trinkgeld-tracker/src/services/statisticsService.ts:9-12 | the mean of a non-empty list of values between `lo` and `hi` lies between `lo` and `hi` |
| Seqs.MaxOf | trinkgeld-tracker/src/services/statisticsService.ts:32 | `Math.max(...xs)` of a non-empty list is one of its elements and no element exceeds it |
| Seqs.MinOf | trinkgeld-tracker/src/services/statisticsService.ts:33 | `Math.min(...xs)` of a non-empty list is one of its elements and no element is below it |
| Calendar.DayNumber | trinkgeld-tracker/src/services/statisticsService.ts:43 | the day count of `new Date(s.datum)` since 0001-01-01; no contract of its own, described by `NextDateIsNextDay` and `YearLength` |
| Calendar.Weekday | trinkgeld-tracker/src/services/statisticsService.ts:43 | the weekday, 0 = Monday to 6 = Sunday, always in range; `NextDateIsNextDay` shows that it steps by one each day |
| Calendar.JsDay | trinkgeld-tracker/src/services/statisticsService.ts:78 | `getDay`: in range, 0 exactly on a Sunday, otherwise the Monday-first weekday plus one |
| Calendar.WeekStart | trinkgeld-tracker/src/services/statisticsService.ts:77-80 | the `getDate() - day + (day === 0 ? -6 : 1)` week start; no contract of its own, described by `WeekStartIsMonday` and `SundayBelongsToPrecedingMonday` |
| Calendar.DaysInYear | trinkgeld-tracker/src/services/statisticsService.ts:71-72 | the twelve months of a year add up to 366 days in a leap year and 365 otherwise, the distance between consecutive year starts |
| Calendar.MonthsOfYear | trinkgeld-tracker/src/services/statisticsService.ts:71-72 | the months of a year add up to 337 days plus February |
| Calendar.YearLength | trinkgeld-tracker/src/services/statisticsService.ts:71-72 | consecutive year starts are 365 days apart, 366 after a leap year |
| Calendar.NextDateIsNextDay | trinkgeld-tracker/src/services/statisticsService.ts:43 | the next calendar date of a valid date is valid, has the next day number, and falls on the next weekday |
| Calendar.NextInMonth | trinkgeld-tracker/src/services/statisticsService.ts:43 | within a month, the next date is the next day number |
| Calendar.NextMonthStart | trinkgeld-tracker/src/services/statisticsService.ts:43 | after a month's last day (not December) comes the next month's first, one day number later |
| Calendar.NextYearStart | trinkgeld-tracker/src/services/statisticsService.ts:43 | after 31 December comes 1 January, one day number later |
| Calendar.WeekStartIsMonday | trinkgeld-tracker/src/services/statisticsService.ts:77-81 | the source's week-start formula gives the Monday on or before the reference day, at most six days back |
| Calendar.SundayBelongsToPrecedingMonday | trinkgeld-tracker/src/services/statisticsService.ts:79 | for a Sunday, the `-6` branch picks the Monday six days earlier, so the Sunday ends its week |
| Calendar.InWeekIffSameWeek | trinkgeld-tracker/src/services/statisticsService.ts:83-89 | a day lies in the week window of a reference day if and only if both fall in the same Monday-to-Sunday week |
| Calendar.WeekBefore | src/pages/StatsPage.tsx:29-31 | seven days earlier, the week start is exactly seven days earlier |
| Statistics.Tips | trinkgeld-tracker/src/services/statisticsService.ts:21 | the tip list has one entry per shift, its `betrag`, in order |
| Statistics.TotalTips | trinkgeld-tracker/src/services/statisticsService.ts:21 | `sum(shifts.map(s => s.betrag))`; no contract of its own, described by `TotalTipsSnoc` and `WeekSumsPartition` |
| Statistics.Average | trinkgeld-tracker/src/services/statisticsService.ts:9-12 | 0 for an empty list; otherwise a whole number of cents in the half-open half-cent interval around the mean, i.e. `round` of the mean by `Round2Unique` |
| Statistics.MeanWithinRange | trinkgeld-tracker/src/services/statisticsService.ts:24 | the unrounded mean of a non-empty list lies between its minimum and maximum |
| Statistics.AverageWithinRange | trinkgeld-tracker/src/services/statisticsService.ts:9-12 | the rounded average lies within half a cent of the list's range |
| Statistics.HasRevenue | trinkgeld-tracker/src/services/statisticsService.ts:22 | `s.umsatz && s.umsatz > 0`, absent and 0 alike; no contract of its own, described by `RevenueIgnoresShiftsWithout` and `RevenueCountsShiftsWith` |
| Statistics.TotalRevenue | trinkgeld-tracker/src/services/statisticsService.ts:22-23 | the revenue total over the shifts with a positive revenue; no contract of its own, described by `TotalRevenueSign`, `RevenueIgnoresShiftsWithout` and `RevenueCountsShiftsWith` |
| Statistics.TotalRevenueSign | trinkgeld-tracker/src/services/statisticsService.ts:22-23 | the revenue total is never negative, and positive if and only if some shift has a positive revenue |
| Statistics.RevenueIgnoresShiftsWithout | trinkgeld-tracker/src/services/statisticsService.ts:22 | a shift with an absent or zero revenue leaves the revenue total unchanged |
| Statistics.RevenueCountsShiftsWith | trinkgeld-tracker/src/services/statisticsService.ts:22-23 | a shift with a positive revenue adds exactly that revenue to the total |
| Statistics.TipExtremes | trinkgeld-tracker/src/services/statisticsService.ts:32-33 | the largest and the smallest tip bound every shift's tip |
| Statistics.AverageOfTips | trinkgeld-tracker/src/services/statisticsService.ts:24-29 | `average` of the tips equals the rounded tip total over the number of shifts |
| Statistics.TipRate | trinkgeld-tracker/src/services/statisticsService.ts:31 | present exactly when the revenue total is positive, and then the tip total as a percentage of the revenue total, rounded to the cent |
| Statistics.CalculateStats | trinkgeld-tracker/src/services/statisticsService.ts:18-36 | `null` exactly for no shifts; the shift count; the rounded tip total; the rounded total over the shifts with a positive revenue; the best and worst shift are the unrounded maximum and minimum tips; no tip rate exactly when no shift has a positive revenue, otherwise `TipRate` of the unrounded totals; the per-shift average is `average` of the tips; the per-hour average is `round` of the UNROUNDED per-shift mean divided by 5.5 |
| Statistics.AveragePerHourWithinRange | trinkgeld-tracker/src/services/statisticsService.ts:24-33 | the hourly average lies between the worst and the best shift divided by 5.5 hours, up to half a cent |
| Statistics.TipRateFromTotals | trinkgeld-tracker/src/services/statisticsService.ts:21-31 | tips of 10 on a revenue of 100 and 10 on 50 give a tip rate of 13.33%, from the totals, while the mean of the two shifts' own rates, tip over revenue, is 15% |
| Statistics.RateExampleTotals | trinkgeld-tracker/src/services/statisticsService.ts:21-23 | the example's tip total is 20 and its revenue total 150 |
| Statistics.TotalRevenueNonNegative | trinkgeld-tracker/src/services/statisticsService.ts:22-28 | the reported revenue total is never negative |
| Statistics.AveragePerShiftWithinRange | trinkgeld-tracker/src/services/statisticsService.ts:24-33 | the reported per-shift average lies between the worst and the best shift, up to half a cent |
| Statistics.WorstNotAboveBest | trinkgeld-tracker/src/services/statisticsService.ts:32-33 | the worst shift never exceeds the best |
| Statistics.QuotientSign | trinkgeld-tracker/src/services/statisticsService.ts:62-65 | the change in percent is positive or negative exactly as the signs of the difference and the baseline dictate |
| Statistics.CalcChange | trinkgeld-tracker/src/services/statisticsService.ts:57-67 | a zero baseline gives a flat 0; otherwise up if and only if the current total moved away from zero past the baseline, down in the opposite case, and the value is a whole number of tenths within 0.05 of the exact change, i.e. its one-decimal rounding |
| Statistics.ChangeValueMatchesDirection | trinkgeld-tracker/src/services/statisticsService.ts:62-65 | the rounded value never has the opposite sign of the direction, and is 0 when flat |
| Statistics.ChangeOfEqualTotals | trinkgeld-tracker/src/services/statisticsService.ts:61-65 | equal totals compare as a flat 0 |
| Statistics.TinyRiseShowsZeroUp | trinkgeld-tracker/src/services/statisticsService.ts:64-65 | from 100 to 100.01 the value rounds to 0.0 while the direction is up |
| Statistics.ChangeExamples | trinkgeld-tracker/src/services/statisticsService.ts:61-66 | 100 to 110 is +10.0 up; any change against a zero baseline is a flat 0 |
| Statistics.FilterByMonth | trinkgeld-tracker/src/services/statisticsService.ts:69-74 | exactly the shifts of the given year and 0-based month, in input order |
| Statistics.FilterByWeek | trinkgeld-tracker/src/services/statisticsService.ts:76-91 | exactly the shifts from the Monday to the Sunday of the reference day's week, in input order; equivalently, the shifts in the same Monday-based week |
| Statistics.InWeekIffSameWeekAll | trinkgeld-tracker/src/services/statisticsService.ts:83-89 | the week window holds exactly the days of the reference day's week |
| Statistics.BucketOf | trinkgeld-tracker/src/services/statisticsService.ts:49-54 | a bucket carries its label and the number of its tips; an empty bucket reports 0 average and 0 total, a non-empty one the rounded mean of its tips; the total is the tips' sum within half a cent |
| Statistics.WeekdayBuckets | trinkgeld-tracker/src/services/statisticsService.ts:49-54 | always seven buckets labelled Mo to So, each counting the shifts on its weekday, averaging their tips and totalling round2 of them, empty ones zeroed |
| Statistics.WeekdayTipsSnoc | trinkgeld-tracker/src/services/statisticsService.ts:42-47 | one more shift adds its tip to the list of its own weekday and to no other |
| Statistics.WeekCountsSnoc | trinkgeld-tracker/src/services/statisticsService.ts:42-47 | one more shift raises the seven counts together by one |
| Statistics.WeekdaySumSnoc | trinkgeld-tracker/src/services/statisticsService.ts:42-47 | one more shift adds its tip to its weekday's sum only |
| Statistics.WeekSumsSnoc | trinkgeld-tracker/src/services/statisticsService.ts:42-47 | one more shift adds its tip to the seven sums together |
| Statistics.TotalTipsSnoc | trinkgeld-tracker/src/services/statisticsService.ts:21 | one more shift adds its tip to the tip total |
| Statistics.WeekCountsPartition | trinkgeld-tracker/src/services/statisticsService.ts:42-53 | the seven weekday counts add up to the number of shifts |
| Statistics.WeekSumsPartition | trinkgeld-tracker/src/services/statisticsService.ts:42-52 | the seven unrounded weekday sums add up to the tip total |
| Statistics.WeekSumsLast | trinkgeld-tracker/src/services/statisticsService.ts:42-52 | the last shift adds its tip to the seven weekday sums and to the tip total alike |
| Statistics.BucketCountsAddUp | trinkgeld-tracker/src/services/statisticsService.ts:49-54 | the reported bucket counts add up to the number of shifts |
| Statistics.BucketTotalsNearTotal | trinkgeld-tracker/src/services/statisticsService.ts:52 | the reported bucket totals add up to the tip total within 3.5 cents |
| Statistics.ShiftInItsOwnBucket | trinkgeld-tracker/src/services/statisticsService.ts:42-46 | a shift is collected for weekday `w` if and only if it falls on `w` |
| Statistics.LabelsDistinct | trinkgeld-tracker/src/services/statisticsService.ts:39 | the seven labels are pairwise different, so no two weekdays share an entry of the map |
| Statistics.TipsFor | trinkgeld-tracker/src/services/statisticsService.ts:51-53 | a label missing from the map reads as an empty list, a present one as its list |
| Statistics.EmptyGroups | trinkgeld-tracker/src/services/statisticsService.ts:40 | the initial map holds an empty list under each of the seven labels |
| Statistics.PushTip | trinkgeld-tracker/src/services/statisticsService.ts:43-46 | pushing a shift's tip onto its weekday label's list turns the map for a prefix into the map for the prefix plus that shift; the label is always present |
| Statistics.PushTipAt | trinkgeld-tracker/src/services/statisticsService.ts:42-47 | the same step for the next shift of the list being walked |
| Statistics.CollectTips | trinkgeld-tracker/src/services/statisticsService.ts:40-47 | the loop leaves a map giving, under each of the seven labels, the tips of exactly the shifts on that weekday, in order |
| Statistics.BucketsOfGroups | trinkgeld-tracker/src/services/statisticsService.ts:49-54 | summarising each label's list read from the map gives the seven buckets |
| Statistics.GroupByWeekday | trinkgeld-tracker/src/services/statisticsService.ts:38-55 | the result is the seven weekday buckets, and their counts add up to the number of shifts |
| Statistics.BucketTotalsCanMissRoundedTotal | trinkgeld-tracker/src/services/statisticsService.ts:52 | two half-cent tips on different weekdays give bucket totals of 0.02 against a rounded tip total of 0.01 |
| StatsPage.PreviousMonth | src/pages/StatsPage.tsx:25-26 | the month before January is December of the previous year; otherwise the previous month of the same year |
| StatsPage.Windows | src/pages/StatsPage.tsx:20-32 | the current and previous windows per period; no contract of its own, described by `MonthWindows`, `WeekWindows` and `AllPeriodIsFlat` |
| StatsPage.PeriodData | src/pages/StatsPage.tsx:16-44 | nothing loaded gives the empty view; otherwise the current window, its `calculateStats` summary (present exactly when the window is non-empty), its seven `groupByWeekday` buckets, and a comparison of the two rounded tip totals exactly when both windows are non-empty |
| StatsPage.MonthWindows | src/pages/StatsPage.tsx:23-26 | for `month`: the current window is this calendar month, the previous window the month before, with January rolling back to December |
| StatsPage.WeekWindows | src/pages/StatsPage.tsx:27-31 | for `week`: the current window runs from this week's Monday to its Sunday, the previous one over the seven days before that Monday |
| StatsPage.AllPeriodIsFlat | src/pages/StatsPage.tsx:20-36 | for `all`: the comparison exists exactly when there are shifts, and is then a flat 0 |
| StatsPage.MeanTip | src/pages/StatsPage.tsx:51-52 | an empty group has mean 0; otherwise the unrounded mean, the value that times the group's size gives its tip total |
| StatsPage.MeanTipWithinRange | src/pages/StatsPage.tsx:51-52 | the mean tip of a non-empty group lies between its smallest and its largest tip |
| StatsPage.ShiftComparison | src/pages/StatsPage.tsx:47-54 | `null` exactly for an empty window; otherwise the number and mean tip of the early shifts and of the late shifts |
| StatsPage.KindCountsPartition | src/pages/StatsPage.tsx:49-50 | early, late and untyped shifts together account for every shift of the window |
| StatsPage.KindGroupsAreExact | src/pages/StatsPage.tsx:49-50 | the early group holds exactly the window's early shifts, the late group exactly its late ones |
| Text.LowerChar | src/pages/HistoryPage.tsx:31 | A–Z and À–Þ (except ×) move 32 code points down to their lowercase letters; every other character stays |
| Text.ToLower | src/pages/HistoryPage.tsx:31 | lowercasing keeps the length and lowercases each character |
| Text.ToLowerIdempotent | src/pages/HistoryPage.tsx:31 | lowercasing twice is lowercasing once |
| Text.LeadingBlanks | src/pages/HistoryPage.tsx:30 | the leading run of whitespace is all whitespace and is followed by a non-whitespace character or the end |
| Text.TrailingBlanks | src/pages/HistoryPage.tsx:30 | the trailing run of whitespace is all whitespace and is preceded by a non-whitespace character or the start |
| Text.Trim | src/pages/HistoryPage.tsx:30 | `trim()`, dropping the maximal leading and trailing whitespace runs; no contract of its own, described by `LeadingBlanks`, `TrailingBlanks` and `TrimEmptyIffBlank` |
| Text.TrimEmptyIffBlank | src/pages/HistoryPage.tsx:30 | `search.trim()` is empty if and only if the search is only whitespace |
| Text.Contains | src/pages/HistoryPage.tsx:32-35 | `includes` holds if and only if the needle occurs at some position of the text |
| Text.ContainsEdges | src/pages/HistoryPage.tsx:32-35 | the empty needle occurs everywhere; a non-empty one never occurs in the empty text |
| Text.Join | src/pages/ProfilePage.tsx:27 | joining a single field gives that field |
| Text.Split | src/pages/ProfilePage.tsx:27 | splitting always yields at least one piece |
| Text.SplitPlain | src/pages/ProfilePage.tsx:27 | a text without the separator splits into itself |
| Text.SplitCons | src/pages/ProfilePage.tsx:27 | splitting a field followed by the separator peels that field off |
| Text.SplitJoin | src/pages/ProfilePage.tsx:27 | joining non-empty fields none of which contains the separator, then splitting, gives the fields back |
| Text.JoinAvoids | src/pages/ProfilePage.tsx:27 | a character other than the separator, and in no field, is not in the joined text |
| HistoryPage.MatchesSearch | src/pages/HistoryPage.tsx:32-36 | the lowercased note, the date text or the lowercased weekday text contains the query; no contract of its own, described by `HistoryFilterMembers` and `NoteHitIsKept` |
| HistoryPage.HistoryFilter | src/pages/HistoryPage.tsx:22-37 | the type filter, then the search filter when the search is not blank; no contract of its own, described by `HistoryFilterMembers`, `NoFilterKeepsAll`, `NoteHitIsKept` and `HistoryFilterShrinks` |
| HistoryPage.SortValue | src/pages/HistoryPage.tsx:40-44 | the column each sort key compares: day number, amount or €/hour; no contract of its own, described by `SortDescending` and `FilteredShifts` |
| HistoryPage.HistoryFilterMembers | src/pages/HistoryPage.tsx:24-36 | a shift is listed if and only if it is loaded, passes the type filter, and matches a non-blank search |
| HistoryPage.NoFilterKeepsAll | src/pages/HistoryPage.tsx:25-30 | with `all` and a blank search, the filtered list is the loaded list, in order |
| HistoryPage.NoteHitIsKept | src/pages/HistoryPage.tsx:31-33 | a shift of the selected type whose lowercased note contains the lowercased, untrimmed query is kept |
| HistoryPage.HistoryFilterShrinks | src/pages/HistoryPage.tsx:20-36 | the filters invent and duplicate nothing, and the list never grows |
| HistoryPage.Swap | src/pages/HistoryPage.tsx:40-45 | an adjacent exchange moves the two elements and keeps the multiset |
| HistoryPage.InsertAt | src/pages/HistoryPage.tsx:40-45 | with a sorted prefix, inserting the next element extends the sorted prefix by one, keeps the multiset and leaves the rest untouched |
| HistoryPage.SortDescending | src/pages/HistoryPage.tsx:40-45 | the array ends up non-increasing in the key and is a permutation of what it held |
| HistoryPage.SortedCopy | src/pages/HistoryPage.tsx:22-45 | the sorted copy is a permutation of the kept shifts, non-increasing in the key |
| HistoryPage.FilteredShifts | src/pages/HistoryPage.tsx:20-48 | nothing loaded gives `[]`; otherwise a permutation of the filtered shifts, no longer than the loaded list, non-increasing in the chosen column; the loaded array is only read |
| ProfileExport.Digits | src/pages/ProfilePage.tsx:16 | a number's decimal form is non-empty and all digits |
| ProfileExport.Padded | src/pages/ProfilePage.tsx:16 | zero-padded numbers hold only digits and minus signs and reach the requested width |
| ProfileExport.IsoDate | src/pages/ProfilePage.tsx:16 | the date field contains neither separator |
| ProfileExport.KindLabel | src/pages/ProfilePage.tsx:19 | early is "Früh", late is "Spät", an untyped shift is empty |
| ProfileExport.FalsyBlank | src/pages/ProfilePage.tsx:20-21 | an absent number and 0 both give an empty field; any other value its text |
| ProfileExport.Row | src/pages/ProfilePage.tsx:15-25 | a row has as many fields as the header, in the header's order: date, weekday, amount, type, colleagues, revenue, €/hour, tip %, note |
| ProfileExport.Table | src/pages/ProfilePage.tsx:15-27 | the header row comes first, then one row per shift in input order |
| ProfileExport.Lines | src/pages/ProfilePage.tsx:27 | one line per row, each row joined by `;` |
| ProfileExport.ExportCsv | src/pages/ProfilePage.tsx:12-28 | nothing exactly for an absent or empty list; otherwise U+FEFF followed by the lines joined by line feeds |
| ProfileExport.HeadersAreClean | src/pages/ProfilePage.tsx:14 | no column title contains `;` or a line feed |
| ProfileExport.TableIsClean | src/pages/ProfilePage.tsx:14-25 | with clean shift rows, every table row is clean |
| ProfileExport.LinesReadBack | src/pages/ProfilePage.tsx:27 | clean rows joined by `;` and by line feeds split back into the same rows |
| ProfileExport.ExportReadsBack | src/pages/ProfilePage.tsx:12-28 | when no field holds a separator, the export reads back as the mark, the header, and each shift's nine fields in input order |
| ProfileExport.NoteWithSeparatorShiftsColumns | src/pages/ProfilePage.tsx:24-27 | fields are not quoted: a note holding `;` makes its line read back as ten fields |
| ProfileExport.JoinSnoc | src/pages/ProfilePage.tsx:27 | joining one more field appends the separator and the field |
| ProfileExport.ZeroRevenueIsBlank | src/pages/ProfilePage.tsx:21 | a revenue of 0 is exported as an empty field, like a missing one |

## Left out

- Binary floating point. Amounts, sums and quotients are exact reals, so IEEE-754 effects of `Math.round(n * 100) / 100` and of summing JavaScript numbers are not modelled.
- Time zones and clock time. Dates are read to the day in one calendar. The shift between UTC parsing of `YYYY-MM-DD` and local `getDay`/`getMonth`/`toLocaleDateString` is not modelled, and neither are the hour settings of `filterByWeek`'s window ends.
- Locale formatting. `formatDate`, `getWeekday`, `formatCurrency` and the number-to-text conversion of the CSV are opaque parameters. The weekday label of `groupByWeekday` (`toLocaleDateString(...).replace('.', '')`) is taken to be one of the seven labels, computed by the shared calendar. A label outside the seven would drop the shift silently; that case is not modelled.
- Shift dates that do not exist. A stored `datum` is taken to be a real calendar date; a text such as `2024-01-32` would parse as an invalid `Date` and be dropped by every filter and bucket, which is not modelled.
- Text.ToLower: lowercases Basic Latin and Latin-1 letters only, not the whole of Unicode.
- HistoryPage.SortDescending: sorts by insertion. The stability of `Array.prototype.sort` (equal keys keep their input order) is not proved.
- HistoryPage.FilteredShifts: the two `filter` steps are modelled as functions on sequences. Only the final sort works in place on an array (the copy).
- ProfileExport.IsoDate: the stored `datum` text is rebuilt from the date as `YYYY-MM-DD`. Years with more than four digits and negative years are rendered without the ISO-8601 `±` six-digit form.
- The download steps of the export (`Blob`, `URL.createObjectURL`, the link click, the file name with today's date).
- `useShifts` and the remote storage behind it, the loading flags, deletion from the history page, and all rendering and charts.
- `AuthPage.tsx`, `BottomNav.tsx` and `utils.ts` (`cn`, `formatDateShort`), which hold no computation of the core.
