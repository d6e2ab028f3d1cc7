# Sleep-Tracker night accounting, in Dafny

Sleep-Tracker is an Electron and React desktop app for logging sleep. It records:

- the sleep periods of each night (night sleep, nap, drowsiness, catch-up sleep), with bed and wake times and two quality ratings;
- mood records and agenda records.

This project models the app's core: the **night accounting** and the list and aggregation logic built on it.

- **Calendar and text** (`Text`, `Calendar`): these support the rest of the model.
  - A Gregorian date type with successor and predecessor across month, year and leap-year boundaries.
  - Wall-clock times of the form hours and minutes.
  - Zero-padded `YYYY-MM-DD` and `HH:mm` formatting.
  - JavaScript's code-unit string order. For four-digit years, the order of formatted dates is proved to equal chronological order.
- **Date utilities** (`DateUtils`):
  - the sleep duration across midnight;
  - the `Xh Ymin` duration label, with a parser that proves the label loses nothing;
  - the clock-to-hours conversion;
  - the 20:00 night boundary (`GetNightDate`);
  - the default form date, the last-N-days window and the "Nuit du d au d+1" label.
- **The record store** (`Store.RecordStore`): a class with one sequence field per record kind.
  - Save appends, update merges into the first record with the id and stamps `updatedAt`, and delete filters the id out.
  - The date-range query compares date strings.
  - Each operation changes only its own list.
- **The history list** (`SleepList`):
  - grouping by night, nights newest first, and per-night totals;
  - the expand and collapse toggle, and forwarding an edit to the store.
- **The entry form** (`SleepForm.FormState`): a class holding the shared date and the never-empty list of rows.
  - It supports adding, removing and editing rows, submitting and resetting, and the quality-button styles.
- **The charts**:
  - `StackedChart`: minutes per night and sleep type over a window, the night totals and the trailing 7-night average.
  - `PieCharts`: the type filter, minutes per type, the two quality histograms and the positive-only slice selection.
  - `TimelineChart`: the 20h–20h scale and one bar per record of each window night.
  - `ScatterChart`: bed and wake points and the distinct night axis.
  - The shared scale, axis labels and per-type sums live in `ChartScale`.
- **The test-data generator** (`TestData`): per-day records built from random draws that are passed in as inputs.

State that the source changes step by step is modelled imperatively: the store, the form, the list's expanded set, the grouping `reduce`, the chart accumulators and the generator's day loop. Each such method is proved against a specification function, and the properties the source promises are proved about those functions as lemmas.

Times are held as typed `Time` values and dates as `Date` values; formatting to strings happens at the edges. Durations are whole minutes.

## Model

| member | source | states |
|---|---|---|
| Calendar.Next | src/renderer/utils/dateUtils.ts:125 | The successor is after the date and no date lies strictly between them (month, year and 29 February boundaries included). |
| Calendar.Prev | src/renderer/utils/dateUtils.ts:102 | The predecessor is the date whose successor is the given date. |
| Calendar.PrevNext | src/renderer/utils/dateUtils.ts:102 | Predecessor undoes successor. |
| Calendar.MinusDaysNotAfter | src/renderer/utils/dateUtils.ts:71-75 | Going back more days never gives a later date. |
| Calendar.FormatDateOrder | src/main/store.ts:63 | For four-digit years, comparing `YYYY-MM-DD` strings in JavaScript order is comparing the dates chronologically, and every formatted date has 10 characters. |
| Calendar.FormatDateInjective | src/renderer/components/sleep/SleepList.tsx:20-30 | Distinct dates give distinct date strings, so keying groups by the string is keying by the date. |
| Calendar.FormatDateStrictOrder | src/renderer/components/sleep/charts/SleepScatterChart.tsx:65 | An earlier date formats to a strictly smaller string. |
| Calendar.FormatTimeOrder | src/renderer/utils/dateUtils.ts:32 | Comparing `HH:mm` strings is comparing the minutes of the day, and every such string has length 5. |
| Calendar.Insert | src/renderer/components/sleep/SleepList.tsx:32 | Inserting into a sorted list keeps it sorted and adds exactly that date (multiset). |
| Calendar.SortDates | src/renderer/components/sleep/SleepList.tsx:32 | The sort result is ordered (ascending or descending) and is a permutation of its input. |
| Calendar.SortDistinct | src/renderer/components/sleep/charts/SleepScatterChart.tsx:65 | Sorting a list without repeats yields a list without repeats that has the same members. |
| Types.SleepTypesComplete | src/renderer/types/index.ts:2 | There are exactly four sleep types, each listed once. |
| Types.QualityLevelsComplete | src/renderer/types/index.ts:5 | The quality levels are exactly the integers 1 to 5, in order. |
| Types.LabelsAndColorsDistinct | src/renderer/types/index.ts:43-65 | The label and colour tables are total over the four types, and distinct types get distinct labels and distinct colours. |
| Types.QualityLabelsDistinct | src/renderer/types/index.ts:51-57 | The quality labels are total over levels 1 to 5, non-empty and pairwise distinct. |
| DateUtils.SleepDuration | src/renderer/utils/dateUtils.ts:25-37 | The duration is in 1..1440 minutes, and bed time plus duration lands on the wake time modulo a day. |
| DateUtils.CalculateSleepDuration | src/renderer/utils/dateUtils.ts:25-37 | The method's result, after reassigning the wake instant a day later when it is not after bed, equals `SleepDuration`. |
| DateUtils.SleepDurationCases | src/renderer/utils/dateUtils.ts:32-36 | Wake after bed gives wake − bed, otherwise wake − bed + 1440, and equal times give 1440, never 0. |
| DateUtils.SleepDurationExamples | src/renderer/utils/dateUtils.test.ts:14-34 | 22:00→07:00 is 540, 23:30→06:30 is 420, 14:00→15:30 is 90, and 23:00→00:00 is 60. |
| DateUtils.FormatDurationRoundTrip | src/renderer/utils/dateUtils.ts:42-53 | Parsing the label `{m}min` / `{h}h` / `{h}h {m}min` gives back the minutes, for every natural number of minutes. |
| DateUtils.FormatDurationInjective | src/renderer/utils/dateUtils.ts:42-53 | Distinct durations get distinct labels. |
| DateUtils.FormatDurationExamples | src/renderer/utils/dateUtils.test.ts:36-51 | 540 is "9h", 90 is "1h 30min" and 45 is "45min". |
| DateUtils.FormatDurationEdgeExamples | src/renderer/utils/dateUtils.ts:46-51 | 0 is "0min", and whole hours (120 and 480) drop the minutes. |
| DateUtils.TimeToDecimal | src/renderer/utils/dateUtils.ts:59-62 | The value is hours + minutes/60 (sixty times it is the minute of the day), and it lies in [0, 24). |
| DateUtils.TimeToDecimalExamples | src/renderer/utils/dateUtils.test.ts:53-60 | 14:30 is 14.5, 07:15 is 7.25, 22:00 is 22 and 00:00 is 0. |
| DateUtils.LastNDays | src/renderer/utils/dateUtils.ts:67-78 | The window has n dates (none when n ≤ 0). |
| DateUtils.GetLastNDays | src/renderer/utils/dateUtils.ts:67-78 | The loop from i = n−1 down to 0, pushing today − i, builds exactly `LastNDays(n, today)`. |
| DateUtils.LastNDaysShape | src/renderer/utils/dateUtils.test.ts:69-88 | The window starts at today − (n−1), ends at today, is made of consecutive days and is strictly ascending. |
| DateUtils.LastNDaysFormattedAscending | src/renderer/utils/dateUtils.ts:74 | For four-digit years, the window's date strings are strictly ascending. |
| DateUtils.GetNightDate | src/renderer/utils/dateUtils.ts:93-105 | Non-night types keep their date; a night record with bed hour below 20 goes to the previous day, and one at 20 or later keeps its date. |
| DateUtils.NightDateIsSameOrPreviousDay | src/renderer/utils/dateUtils.ts:100-104 | The night date is the date or the day before it, never later, and only the bed hour matters, not its minutes. |
| DateUtils.GetNightDateExamples | src/renderer/utils/dateUtils.test.ts:90-116 | The test cases, including 19:59 giving the previous day, 20:00 the same day, and 2025-01-01 07:00 giving 2024-12-31. |
| DateUtils.GetDefaultNightDate | src/renderer/utils/dateUtils.ts:112-118 | Before 20:00 the default date is yesterday, otherwise today. |
| DateUtils.DefaultDateIsNightOfNow | src/renderer/utils/dateUtils.ts:112-118 | The default date is the night date of a night record starting now. |
| DateUtils.GetDefaultNightDateExamples | src/renderer/utils/dateUtils.test.ts:119-145 | 08:00 and 19:59 give the previous day, and 20:00 and 23:00 the same day. |
| DateUtils.MonthAbbrRoundTrip | src/renderer/utils/dateUtils.ts:128 | The French month abbreviations are pairwise distinct: each one reads back as its month. |
| DateUtils.FormatNightDateRoundTrip | src/renderer/utils/dateUtils.ts:123-131 | For four-digit years, the "Nuit du d au d+1 month year" label parses back to the night's date. |
| DateUtils.NightLabelOfNext | src/renderer/utils/dateUtils.ts:124-130 | The label is built from the start day and, for the following day, its day, month abbreviation and year. |
| DateUtils.FormatNightDateExample | src/renderer/utils/dateUtils.ts:121-131 | The night of 2025-12-21 reads "Nuit du 21 au 22 déc. 2025". |
| DateUtils.YearEndNightFields | src/renderer/utils/dateUtils.test.ts:157-161 | The night of 2025-12-31 is labelled with day 31, then day 1, "janv." and 2026. |
| Store.IndexOfId | src/main/store.ts:50 | `findIndex`: −1 exactly when no record has the id, otherwise the first position holding it. |
| Store.RemoveId | src/main/store.ts:58 | The result keeps exactly the records without the id. |
| Store.RemoveAbsentId | src/main/store.ts:57-60 | Deleting an id no record has changes nothing. |
| Store.RemoveIdAppend | src/main/store.ts:58 | Deleting works piecewise over a concatenation, so the kept records keep their relative order. |
| Store.RemoveIdIdempotent | src/main/store.ts:57-60 | Deleting the same id twice is deleting it once. |
| Store.DeleteUndoesSave | src/main/store.ts:42-60 | Saving a record with a fresh id and then deleting that id restores the list. |
| Store.MergeSleepFields | src/main/store.ts:52-54 | For each of the eight sleep fields, a field present in the patch takes the patch's value and an absent one keeps the record's value; `updatedAt` is always the new time, even when the patch carries one. |
| Store.MergeMoodFields | src/main/store.ts:79-84 | For each mood field, the patch's value when present (for the optional `notes`, the patch's notes when it carries them) and the record's value otherwise; `updatedAt` is the new time. |
| Store.MergeAgendaFields | src/main/store.ts:106-111 | For each agenda field, the patch's value when present (for the optional `description`, the patch's description when it carries one) and the record's value otherwise; `updatedAt` is the new time. |
| Store.MergeFormPatch | src/main/store.ts:52 | Merging a form's data gives the record exactly that data while it keeps its id and creation time. |
| Store.MergeIdempotent | src/main/store.ts:52 | Applying the same patch at the same time twice is applying it once, for all three record kinds. |
| Store.FilterDateRangeMembers | src/main/store.ts:62-64 | The range query returns exactly the records whose date string lies in [start, end]. |
| Store.FilterDateRangeAppend | src/main/store.ts:62-64 | The range query works piecewise, so it keeps the stored order. |
| Store.InRangeIsChronological | src/main/store.ts:63 | For four-digit years, the string range test on a record's literal date (not its night) is the chronological range test. |
| Store.RecordStore.constructor | src/main/store.ts:26-34 | All three lists start empty. |
| Store.RecordStore.GetAllSleep | src/main/store.ts:38-40 | Returns the sleep list. |
| Store.RecordStore.SaveSleep | src/main/store.ts:42-46 | Appends the record, and the other two lists are unchanged. |
| Store.RecordStore.UpdateSleep | src/main/store.ts:48-55 | Without the id the list is unchanged; otherwise only the first record with the id is replaced by the merge, the length is kept, and the other lists are unchanged. |
| Store.RecordStore.DeleteSleep | src/main/store.ts:57-60 | The list becomes the old one with the id filtered out, and the other lists are unchanged. |
| Store.RecordStore.GetByDateRange | src/main/store.ts:62-64 | The result holds exactly the stored records in the range, in stored order, and the store is not modified. |
| Store.RecordStore.GetAllMood | src/main/store.ts:69-71 | Returns the mood list. |
| Store.RecordStore.SaveMood | src/main/store.ts:73-77 | Appends to the mood list only. |
| Store.RecordStore.UpdateMood | src/main/store.ts:79-86 | Same contract as the sleep update, on the mood list only. |
| Store.RecordStore.DeleteMood | src/main/store.ts:88-91 | Filters the id out of the mood list only. |
| Store.RecordStore.GetAllAgenda | src/main/store.ts:96-98 | Returns the agenda list. |
| Store.RecordStore.SaveAgenda | src/main/store.ts:100-104 | Appends to the agenda list only. |
| Store.RecordStore.UpdateAgenda | src/main/store.ts:106-113 | Same contract as the sleep update, on the agenda list only. |
| Store.RecordStore.DeleteAgenda | src/main/store.ts:115-118 | Filters the id out of the agenda list only. |
| SleepList.EntryDuration | src/renderer/components/sleep/SleepList.tsx:72 | Each record counts for 1..1440 minutes. |
| SleepList.EntriesOfNightMembers | src/renderer/components/sleep/SleepList.tsx:20-30 | A night's group holds exactly the records of that night. |
| SleepList.EntriesOfNightAppend | src/renderer/components/sleep/SleepList.tsx:26 | Grouping works piecewise, so records keep their input order within a night. |
| SleepList.NightKeysMembers | src/renderer/components/sleep/SleepList.tsx:22-25 | The group keys are exactly the nights of the records, with no repeats. |
| SleepList.GroupByNight | src/renderer/components/sleep/SleepList.tsx:20-30 | The `reduce` builds a map whose keys are the nights in first-seen order and whose group for each night is that night's records in input order. |
| SleepList.NightsSpec | src/renderer/components/sleep/SleepList.tsx:32 | The nights shown are exactly the records' nights, each once, strictly newest first. |
| SleepList.GroupSizesAddUp | src/renderer/components/sleep/SleepList.tsx:20-30 | Every record is in exactly one group: the group sizes add up to the number of records. |
| SleepList.NightTotalsAddUp | src/renderer/components/sleep/SleepList.tsx:71-74 | The per-night totals add up to the total duration of all records, with no overlap removed. |
| SleepList.TotalDuration | src/renderer/components/sleep/SleepList.tsx:71-74 | A total lies between the number of records and 1440 times it. |
| SleepList.Screen | src/renderer/components/sleep/SleepList.tsx:56-68 | No records shows the empty state; otherwise the cards are exactly the nights of `Nights` (so `NightsSpec` applies to them), at least one. |
| SleepList.Toggled | src/renderer/components/sleep/SleepList.tsx:34-42 | The toggled set flips membership of the date and keeps every other date as it was. |
| SleepList.ToggleTwice | src/renderer/components/sleep/SleepList.tsx:34-42 | Toggling twice restores the set. |
| SleepList.FirstRowPatch | src/renderer/components/sleep/SleepList.tsx:49-52 | The patch forwarded is the first submitted row's data. |
| SleepList.ListView.constructor | src/renderer/components/sleep/SleepList.tsx:15-17 | Nothing is expanded and nothing is being edited. |
| SleepList.ListView.ToggleDate | src/renderer/components/sleep/SleepList.tsx:34-42 | The expanded set becomes the toggled one. |
| SleepList.ListView.HandleUpdate | src/renderer/components/sleep/SleepList.tsx:49-54 | The store updates the record with the first row only, and editing ends. |
| SleepForm.QualityColor | src/renderer/components/sleep/SleepForm.tsx:9-25 | The style is the level's base style, with the emphasis suffix appended exactly when the button is selected. |
| SleepForm.QualityColorInjective | src/renderer/components/sleep/SleepForm.tsx:9-25 | Each pair of level and selected flag gets its own style. |
| SleepForm.DefaultEntry | src/renderer/components/sleep/SleepForm.tsx:42-48 | A new row is a 540-minute night (22:00 to 07:00) with the given temporary id. |
| SleepForm.RecordRoundTrip | src/renderer/components/sleep/SleepForm.tsx:53-97 | Copying a record into a row and submitting the row gives the record back; submitting a row and copying it back gives the row back. |
| SleepForm.Records | src/renderer/components/sleep/SleepForm.tsx:90-97 | Submitting gives one record per row, in order, each with the shared date and that row's fields. |
| SleepForm.WithFieldOnlyThatField | src/renderer/components/sleep/SleepForm.tsx:81 | Setting a field sets that field and leaves every other field alone, and writing back a field's own value changes nothing. |
| SleepForm.UpdateRow | src/renderer/components/sleep/SleepForm.tsx:80-82 | Only rows with the temporary id change: in such a row the named field takes the new value and every other field keeps its value; rows without the id are unchanged, and length and ids are kept. |
| SleepForm.RemoveDistinctTempId | src/renderer/components/sleep/SleepForm.tsx:74-78 | With distinct temporary ids, filtering one id removes at most one row and keeps the ids distinct. |
| SleepForm.SuccessMessage | src/renderer/components/sleep/SleepForm.tsx:107-109 | The plural message appears exactly when there is more than one row. |
| SleepForm.FormState.constructor | src/renderer/components/sleep/SleepForm.tsx:51-68 | Without an initial record, the form starts with one default row and the default night date; with one, it starts with a row copied from it and its date. |
| SleepForm.FormState.AddEntry | src/renderer/components/sleep/SleepForm.tsx:70-72 | Appends exactly one default row and keeps the rest. |
| SleepForm.FormState.RemoveEntry | src/renderer/components/sleep/SleepForm.tsx:74-78 | With one row nothing changes; otherwise that id is filtered out. The row list is never empty (`Valid`). |
| SleepForm.FormState.UpdateEntry | src/renderer/components/sleep/SleepForm.tsx:80-82 | The rows become `UpdateRow` of the old rows. |
| SleepForm.FormState.HandleSubmit | src/renderer/components/sleep/SleepForm.tsx:84-117 | Emits the records of the current rows. After a save without an initial record, it resets to one default row and the default date; otherwise rows and date are kept. The message counts the rows as they were before the reset. |
| ChartScale.TypeTotals.Add | src/renderer/components/sleep/charts/SleepPieCharts.tsx:48 | `record[t] += x` changes only type t's total. |
| ChartScale.AddToSum | src/renderer/components/sleep/charts/SleepStackedChart.tsx:37-40 | Adding to one type adds the same amount to the sum over types, and the zero record sums to 0. |
| ChartScale.SumAppend | src/renderer/components/sleep/charts/SleepStackedChart.tsx:45 | The sum over a concatenation is the sum of the sums. |
| ChartScale.SumBounds | src/renderer/components/sleep/charts/SleepStackedChart.tsx:45 | The sum of values between lo and hi lies between n·lo and n·hi. |
| ChartScale.NightMinute | src/renderer/components/sleep/charts/SleepTimelineChart.tsx:13-18 | The minutes since 20:00 lie in [0, 1440) and point back to the same clock time. |
| ChartScale.AdjustTo20hScale | src/renderer/components/sleep/charts/SleepTimelineChart.tsx:13-18 | The adjusted time lies in [20, 44) and is 20 plus the hours since 20:00. |
| ChartScale.AdjustMonotone | src/renderer/components/sleep/charts/SleepScatterChart.tsx:12-17 | Within a 20h–20h night the scale keeps the order of times and is one-to-one. |
| ChartScale.BarLengthIsDuration | src/renderer/components/sleep/charts/SleepTimelineChart.tsx:37-42 | When wake falls later in the same 20h–20h night, the bar's length in hours is the sleep duration. |
| ChartScale.AxisLabelIsClockTime | src/renderer/components/sleep/charts/SleepTimelineChart.tsx:101-104 | On the axis range, the label of tick v is the two-digit clock hour v − 24 (or v) followed by ":00". |
| ChartScale.AxisLabelAtAdjustedHour | src/renderer/components/sleep/charts/SleepScatterChart.tsx:81-85 | For a whole-hour time, the label of its adjusted value is the time itself. |
| StackedChart.TypeDuration | src/renderer/components/sleep/charts/SleepStackedChart.tsx:27-34 | A cell's minutes are never negative. |
| StackedChart.TypeDurationsMakeNightTotal | src/renderer/components/sleep/charts/SleepStackedChart.tsx:37-40 | The four stacked segments of a night add up to that night's total in the history list. |
| StackedChart.DataByDateAndType | src/renderer/components/sleep/charts/SleepStackedChart.tsx:16-34 | The keys are exactly the window dates (accumulation adds none), and each cell is the minutes of that type filed under that night. |
| StackedChart.TotalByDate | src/renderer/components/sleep/charts/SleepStackedChart.tsx:37-40 | There is one total per window date. |
| StackedChart.TotalByDateIsNightTotal | src/renderer/components/sleep/charts/SleepStackedChart.tsx:37-40 | Each total is the night's total of record durations. |
| StackedChart.Window | src/renderer/components/sleep/charts/SleepStackedChart.tsx:43-44 | Position i averages positions max(0, i−6)..i: min(i+1, 7) values. |
| StackedChart.MovingAverage | src/renderer/components/sleep/charts/SleepStackedChart.tsx:42-47 | One average per total, each times its window length equal to its window's sum. |
| StackedChart.MovingAverageBounds | src/renderer/components/sleep/charts/SleepStackedChart.tsx:42-47 | Every average lies within the range of the totals, and the first average is the first total. |
| StackedChart.StackedChartData | src/renderer/components/sleep/charts/SleepStackedChart.tsx:11-47 | The dates are the window, each total is the night total, and the averages are the moving average of the totals. |
| PieCharts.FilterType | src/renderer/components/sleep/charts/SleepPieCharts.tsx:11 | Only the global filter keeps every type, and no filter selects drowsiness. |
| PieCharts.FilterLabelIsTypeLabel | src/renderer/components/sleep/charts/SleepPieCharts.tsx:21-26 | A type filter's button text is its type's label, and it differs from "Global". |
| PieCharts.FilteredEntries | src/renderer/components/sleep/charts/SleepPieCharts.tsx:31-34 | Every kept record passes the filter. |
| PieCharts.FilteredEntriesMembers | src/renderer/components/sleep/charts/SleepPieCharts.tsx:31-34 | The global filter keeps the list itself; a type filter keeps exactly the records of its type. |
| PieCharts.FilteredEntriesAppend | src/renderer/components/sleep/charts/SleepPieCharts.tsx:34 | Filtering works piecewise, so kept records stay in order. |
| PieCharts.SleepTypeData | src/renderer/components/sleep/charts/SleepPieCharts.tsx:39-49 | Starting from zero, the loop ends with each type's total minutes. |
| PieCharts.TypeTotalsSum | src/renderer/components/sleep/charts/SleepPieCharts.tsx:39-49 | The four type totals add up to the total minutes of the kept records. |
| PieCharts.FilteredTypeMinutesKept | src/renderer/components/sleep/charts/SleepPieCharts.tsx:31-49 | A filter that keeps type t keeps all of t's minutes. |
| PieCharts.FilteredTypeMinutesDropped | src/renderer/components/sleep/charts/SleepPieCharts.tsx:31-49 | A filter for another type leaves type t no minutes. |
| PieCharts.QualityHistogram | src/renderer/components/sleep/charts/SleepPieCharts.tsx:60-77 | Starting from five zeros, the loop ends with each level's count of records. |
| PieCharts.HistogramTotal | src/renderer/components/sleep/charts/SleepPieCharts.tsx:60-77 | The five counts add up to the number of records. |
| PieCharts.Positives | src/renderer/components/sleep/charts/SleepPieCharts.tsx:51-85 | Only positive slices are shown, and never more slices than keys. |
| PieCharts.PositivesMembers | src/renderer/components/sleep/charts/SleepPieCharts.tsx:51-85 | A key's slice is shown exactly when its value is positive, and every shown slice belongs to a key. |
| PieCharts.PositivesAppend | src/renderer/components/sleep/charts/SleepPieCharts.tsx:51-85 | Selection works piecewise, so slices keep the key order (types, then levels 1..5). |
| PieCharts.PositivesSum | src/renderer/components/sleep/charts/SleepPieCharts.tsx:51-57 | Dropping zero slices keeps the pie's total. |
| PieCharts.TypeSlicesSum | src/renderer/components/sleep/charts/SleepPieCharts.tsx:51-57 | The type pie's slices add up to the sum over types. |
| PieCharts.LevelSlicesSum | src/renderer/components/sleep/charts/SleepPieCharts.tsx:65-85 | A quality pie's slices add up to the sum of its counts. |
| PieCharts.PieChartsView | src/renderer/components/sleep/charts/SleepPieCharts.tsx:140-172 | No records gives "not enough data"; records but none kept gives "no data for this type"; otherwise the three pies of the kept records. |
| PieCharts.QualityPieTotal | src/renderer/components/sleep/charts/SleepPieCharts.tsx:59-71 | A quality pie totals the number of records it is drawn from. |
| PieCharts.TypePieTotal | src/renderer/components/sleep/charts/SleepPieCharts.tsx:38-57 | The type pie totals the minutes of the records it is drawn from. |
| PieCharts.ChartsTotals | src/renderer/components/sleep/charts/SleepPieCharts.tsx:38-85 | When shown, both quality pies total the kept records and the type pie their minutes. |
| TimelineChart.PointOf | src/renderer/components/sleep/charts/SleepTimelineChart.tsx:37-47 | Both ends of a bar lie on the [20, 44) scale. |
| TimelineChart.NightPoints | src/renderer/components/sleep/charts/SleepTimelineChart.tsx:35-36 | A night gets one bar per record of its group. |
| TimelineChart.SeriesPoints | src/renderer/components/sleep/charts/SleepTimelineChart.tsx:34-49 | Every bar is named after its column's window night, draws a record of that night, and columns never go back. |
| TimelineChart.SeriesComplete | src/renderer/components/sleep/charts/SleepTimelineChart.tsx:34-49 | Every record of a window night's group is drawn in that night's column. |
| TimelineChart.SeriesColumn | src/renderer/components/sleep/charts/SleepTimelineChart.tsx:34-49 | The bars of column x, in series order, are exactly one bar per record of night x's group, in group order. |
| TimelineChart.ColumnsJoin | src/renderer/components/sleep/charts/SleepTimelineChart.tsx:34-49 | Bars whose columns never go back are their columns one after another, so the per-column contents fix the whole series. |
| TimelineChart.TimelineData | src/renderer/components/sleep/charts/SleepTimelineChart.tsx:21-49 | The series is its window columns one after another, and column x holds one bar per record of the night `allDates[x]`, each once and in input order (`EntriesOfNight`); every bar lies in a window column and records of other nights are not drawn. |
| ScatterChart.Points | src/renderer/components/sleep/charts/SleepScatterChart.tsx:20-30 | One point per record, in record order, at the record's night, with y in [20, 44) on the 20h scale. |
| ScatterChart.CategoriesSpec | src/renderer/components/sleep/charts/SleepScatterChart.tsx:65 | Every point's night is a category, every category is some record's night, and the categories strictly increase. |
| ScatterChart.CategoriesSortedAsText | src/renderer/components/sleep/charts/SleepScatterChart.tsx:65 | For four-digit years, the categories are also strictly ascending as strings, the order the source's `sort()` uses. |
| TestData.RandomBetween | src/renderer/utils/generateTestData.ts:5-7 | A draw u in [0, 1) maps into [min, max). |
| TestData.RandomQualityMonotone | src/renderer/utils/generateTestData.ts:22-29 | The quality never decreases as the draw grows, and every level 1..5 is reached. |
| TestData.MinutesToClockFormula | src/renderer/utils/generateTestData.ts:15-19 | The clock is hours = floor(m/60) mod 24 and minutes = floor(m mod 60). |
| TestData.MinutesToClock | src/renderer/utils/generateTestData.ts:15-19 | The clock's minute of the day is floor(m) mod 1440. |
| TestData.MinutesToTime | src/renderer/utils/generateTestData.ts:18 | The `HH:MM` text always has 5 characters. |
| TestData.MinutesToClockWraps | src/renderer/utils/generateTestData.ts:16 | Past midnight the clock wraps: m and m − 1440 give the same time. |
| TestData.DrawnSleepClock | src/renderer/utils/generateTestData.ts:42-44 | A drawn record starts inside its bed window and lasts within its duration window. |
| TestData.NightSleepFacts | src/renderer/utils/generateTestData.ts:41-53 | The night record starts at 22:00 or later, stays in its own date's night, and lasts 180..300 minutes. |
| TestData.DaytimeSleepFacts | src/renderer/utils/generateTestData.ts:55-85 | Catch-up sleep starts in the 05 hour and lasts 60..120 minutes; the nap starts in [12:30, 14:00) and lasts 30..90 minutes. |
| TestData.DayEntriesShape | src/renderer/utils/generateTestData.ts:41-85 | A day has 1..3 records, all dated that day and none of them drowsiness: one night record first, then catch-up, then nap. |
| TestData.PushDay | src/renderer/utils/generateTestData.ts:41-85 | One loop pass appends that day's records. |
| TestData.GeneratedLength | src/renderer/utils/generateTestData.ts:36-88 | d days give between d and 3d records. |
| TestData.GeneratedNightCount | src/renderer/utils/generateTestData.ts:36-88 | Exactly one night record per day. |
| TestData.GeneratedNights | src/renderer/utils/generateTestData.ts:36-88 | Every generated record falls in the night of its own date. |
| TestData.GeneratedDates | src/renderer/utils/generateTestData.ts:36-39 | The records are dated from the first day to the last, in ascending order. |
| TestData.GenerateTestData | src/renderer/utils/generateTestData.ts:32-89 | The loop from today − (days−1) to today builds `Generated` over the window: days..3·days records, one night record per day, each in its own date's night, dated inside the window in ascending order. |

## Left out

- Electron start-up, IPC and preload wiring, and the React rendering are outside the model, as are ECharts option objects, tooltip HTML, legends and styling.
- The encrypted electron-store backend and its key derivation are outside the model: the store is the three in-memory lists of `RecordStore`.
- The `useSleepData` hook is outside the model. It only repeats the store's list edits over IPC, except that its development-mode update rewrites every record with the id, not just the first.
- Clocks are parameters: "now" for `getDefaultNightDate`, the store's `updatedAt` string, and "today" for `getLastNDays` and the generator.
- Time zones and daylight-saving time are not modelled. Sleep durations are plain wall-clock minute arithmetic, whereas the source's local `Date` instants can shift by an hour on DST days.
- TestData.GenerateTestData: dates the records with the local date, whereas the source uses `toISOString`, which gives the UTC date.
- Randomness is modelled as inputs. Every `Math.random()` call of the generator is a value in [0, 1), passed in a `DayDraws` per day.
- `randomIntBetween` is not modelled because nothing calls it.
- `insertTestData`, `clearAllData` and the `window` exposure of the generator are storage and I/O, and are not modelled.
- `formatDate` with arbitrary date-fns patterns, such as the charts' `dd/MM` axis labels, is not modelled.
- DateUtils.FormatNightDate: uses a fixed table of French month abbreviations in place of the date-fns locale.
- Float rounding is not modelled. All chart accumulation is in whole minutes.
  - PieCharts.TypeSlices: slice values stay in minutes rather than `Math.round(minutes / 60 * 10) / 10` hours. Which types are shown is unaffected, because the source selects positive types on the minutes, before rounding.
  - StackedChart.StackedChartData: totals and averages are in minutes, not hours, and the `toFixed` display rounding is left out.
- ChartScale.AxisLabel: only takes whole-number ticks. The source applies `Math.floor` to any numeric value, but the axes only use whole ticks (every 2 hours).
- SleepList.Nights: the descending `localeCompare` sort and the scatter chart's default `sort()` are modelled as date order. `Calendar.FormatDateOrder` proves this is the string order for four-digit years.
- Store.MergeSleep: a patch field is either present or absent. A patch that explicitly sets an optional field to `undefined` (clearing a mood note, say) is not modelled.
- SleepList.ListView.HandleUpdate: the delete-confirmation state and the delete button's wiring to the store are not modelled. Delete itself is `RecordStore.DeleteSleep`.
- SleepForm.FormState.HandleSubmit: a failed save is modelled by the `saved` flag, and the three-second timer that clears the success message is not modelled.
- The `initialEntry?.date || getDefaultNightDate()` fallback for an initial record whose date is the empty string cannot arise, because a `Date` value is never empty.
- The `isSubmitting` flag is modelled only as false after the submit.
