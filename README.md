# Conflict-event dashboard: statistics and per-day aggregation

This project models the two data reductions of the conflict-monitor 3D
heat-map dashboard.

- **`calculateStatistics`** turns the currently selected conflict events
  (battles or explosions) into the summary shown next to the map. The
  summary holds the number of events, the total fatalities, the average
  fatalities per event, the largest fatality count of a single event, and
  the earliest and latest event date. An empty selection shows fixed
  defaults.
- **`aggregateDataByDate`** turns the battles and the explosions into the
  rows of the stacked bar chart. There is one row per calendar day (UTC) on
  which at least one event of either kind happened. Each row counts the
  battles and the explosions of that day.

Both are pure functions, so the model is Dafny functions and lemmas in four
modules:

- `Events` (`events.dfy`): the event record and its day key.
- `Statistics` (`statistics.dfy`): `calculateStatistics`.
- `InsertionSet` (`insertion_set.dfy`): the insertion-ordered JavaScript
  `Set` that collects the day keys.
- `DateAggregation` (`date_aggregation.dfy`): d3's `group` and
  `aggregateDataByDate`.

Modelling choices:

- An event is `Event(fatalities, eventDate)`. `eventDate` is the JavaScript
  `Date` time value: milliseconds since the Unix epoch, UTC. Both functions
  read only these two fields of a record.
- The day key `event_date.toISOString().split('T')[0]` is the UTC day number
  `eventDate / 86_400_000`. With a positive divisor, Dafny's division is
  floor division, which is what the ISO date does. The ISO date part names
  this day, and different days give different date parts. So two records
  share a string key exactly when they share a day number. The day-number
  half of this is `Events.DayKeyIsTheDay`.
- Formatting is kept as the exact value being formatted. `avgFatalities` is
  `ZeroText` (the literal `'0'`) or `Fixed2(v)` (`v.toFixed(2)` for the
  exact quotient `v`). A date is `NotAvailable` (`'N/A'`) or `LocaleDate(t)`
  (`new Date(t).toLocaleDateString()`).
- d3's `group` returns an insertion-ordered Map. It is modelled as a
  `Grouping`: the key list plus a `map` from key to the records. It is
  built one record at a time, as d3 does.
- Field names follow the code: `events`, `totalFatalities`,
  `avgFatalities`, `maxFatalities`, and `dateRange.startDate`/`endDate`.
- Row order is fixed: battle days first, then explosion-only days, each in
  first-occurrence order (`DateAggregation.AggregateDateOrder`).
- The average is formatted by `toFixed(2)`, which the model keeps opaque.

## Model

| member | source | states |
|---|---|---|
| `Events.DayKey` | 3d-heatmap/utils/aggregateDataByDate.ts:6 | The key is the day whose milliseconds hold the event's instant: `day * 86 400 000 <= eventDate < (day + 1) * 86 400 000`. |
| `Events.DayKeyIsTheDay` | 3d-heatmap/utils/aggregateDataByDate.ts:6 | The day key of an event is `day` exactly when the event's instant lies in day `day`'s milliseconds. So equal keys mean the same UTC day. |
| `Statistics.TotalOf` | 3d-heatmap/utils/calculateStatistics.ts:17 | The reference sum of all fatalities, added from the front, equally splits off the last point: the total is the total of all but the last point plus the last point's fatalities. |
| `Statistics.ReduceSum` | 3d-heatmap/utils/calculateStatistics.ts:17 | The `reduce` left fold from an accumulator ends at the accumulator plus the reference sum of all fatalities. |
| `Statistics.Fatalities` | 3d-heatmap/utils/calculateStatistics.ts:23 | `points.map(point => point.fatalities)`: same length, and position `i` holds point `i`'s fatalities. |
| `Statistics.Dates` | 3d-heatmap/utils/calculateStatistics.ts:26 | `points.map(point => point.event_date)`: same length, and position `i` holds point `i`'s time value. |
| `Statistics.Average` | 3d-heatmap/utils/calculateStatistics.ts:20 | For a positive event count, the unformatted average times the event count gives back the total. |
| `Statistics.MaxOf` | 3d-heatmap/utils/calculateStatistics.ts:23 | `Math.max` over a non-empty argument list returns a value no argument exceeds, and some argument equals it. |
| `Statistics.MinOf` | 3d-heatmap/utils/calculateStatistics.ts:29 | `Math.min` over a non-empty argument list returns a value no argument is below, and some argument equals it. |
| `Statistics.CalculateStatistics` | 3d-heatmap/utils/calculateStatistics.ts:1-43 | Empty input gives 0 events, 0 fatalities, `'0'`, max 0 and both dates `'N/A'`. Otherwise: events is the number of points and the total is the sum of all fatalities. The average is the exact total/events. The maximum is at least every point's fatalities and attained by some point. The start and end dates are the minimum and maximum event dates, both attained, with start ≤ end. |
| `Statistics.TotalOfAppend` | 3d-heatmap/utils/calculateStatistics.ts:17 | The fatality total of two concatenated selections is the sum of their totals. |
| `Statistics.TotalOfPermutation` | 3d-heatmap/utils/calculateStatistics.ts:17 | Two selections with the same multiset of points have the same total. |
| `Statistics.ExtremaOfSameValues` | 3d-heatmap/utils/calculateStatistics.ts:23-30 | Argument lists holding the same values have the same `Math.max` and the same `Math.min`. |
| `Statistics.CalculateStatisticsPermutation` | 3d-heatmap/utils/calculateStatistics.ts:14-30 | Reordering the input points (same multiset) leaves every reported statistic unchanged. |
| `Statistics.TwoEventExample` | 3d-heatmap/utils/calculateStatistics.ts:1-43 | The events 5 fatalities on 2023-01-01 and 3 on 2023-01-03 give 2 events, 8 fatalities, average 4, max 5, and a range from the first date to the second. |
| `InsertionSet.Dedup` | 3d-heatmap/utils/aggregateDataByDate.ts:15 | `Array.from(new Set(xs))` holds no value twice and holds exactly the values of `xs`. |
| `InsertionSet.Without` | 3d-heatmap/utils/aggregateDataByDate.ts:15 | The values kept are exactly those of `xs` not in the excluded list. |
| `InsertionSet.FirstIndex` | 3d-heatmap/utils/aggregateDataByDate.ts:15 | Gives a position holding the value with no earlier occurrence: the first occurrence. |
| `InsertionSet.FirstIndexOfPrefix` | 3d-heatmap/utils/aggregateDataByDate.ts:15 | Appending a value does not move the first occurrence of a value already present. |
| `InsertionSet.DedupFirstOccurrenceOrder` | 3d-heatmap/utils/aggregateDataByDate.ts:15 | The Set lists values in increasing order of first occurrence in the inserted sequence. |
| `InsertionSet.DedupOfDistinct` | 3d-heatmap/utils/aggregateDataByDate.ts:15 | Inserting already-distinct values keeps them all, in order. |
| `InsertionSet.WithoutSameValues` | 3d-heatmap/utils/aggregateDataByDate.ts:15 | Excluding by two lists with the same values gives the same result. |
| `InsertionSet.TwoDistinctValues` | 3d-heatmap/utils/aggregateDataByDate.ts:15 | Inserting one value and then a different one gives both, in that order. |
| `InsertionSet.WithoutDisjoint` | 3d-heatmap/utils/aggregateDataByDate.ts:15 | Excluding values that do not occur changes nothing. |
| `InsertionSet.DedupSnoc` | 3d-heatmap/utils/aggregateDataByDate.ts:15 | Inserting one more value appends it exactly when it is new. |
| `InsertionSet.WithoutSnoc` | 3d-heatmap/utils/aggregateDataByDate.ts:15 | Filtering one more value appends it exactly when it is not excluded. |
| `InsertionSet.DedupAppendNewStep` | 3d-heatmap/utils/aggregateDataByDate.ts:15 | The inductive step of `DedupAppend` for a value new to the second list. |
| `InsertionSet.DedupAppend` | 3d-heatmap/utils/aggregateDataByDate.ts:15 | Inserting `a` then `b` gives the distinct values of `a`, then the distinct values of `b` that `a` lacks, each in first-occurrence order. |
| `DateAggregation.DayKeys` | 3d-heatmap/utils/aggregateDataByDate.ts:5-7 | One key per record, in order; every record's day key is listed. |
| `DateAggregation.CountOnDay` | 3d-heatmap/utils/aggregateDataByDate.ts:5-7 | The number of records on a day (the multiplicity of the day among the day keys) is positive exactly when the day is among the keys, and exactly when some record falls on it. |
| `DateAggregation.OnDay` | 3d-heatmap/utils/aggregateDataByDate.ts:5-7 | A day's records are records of the input that fall on that day. Their number is the multiplicity of the day among the records' day keys. |
| `DateAggregation.DayKeysSnoc` | 3d-heatmap/utils/aggregateDataByDate.ts:5-7 | Appending a record appends its day key. |
| `DateAggregation.OnDaySnoc` | 3d-heatmap/utils/aggregateDataByDate.ts:5-7 | Appending a record extends its own day's records only. |
| `DateAggregation.AddToGroup` | 3d-heatmap/utils/aggregateDataByDate.ts:5-7 | One step of d3 `group`: the record's day gets a group ending in the record (a new one-record group for a new day). Every other day's group is unchanged. The key list gains the day at its end exactly when the day is new. A key list that lists the Map's keys once each still does so. |
| `DateAggregation.AddToGroupKeys` | 3d-heatmap/utils/aggregateDataByDate.ts:5-7 | The group step keeps the key set equal to the days seen, and the key list in first-occurrence order. |
| `DateAggregation.AddToGroupRecordsOn` | 3d-heatmap/utils/aggregateDataByDate.ts:5-7 | The group step keeps one day's group equal to that day's records. |
| `DateAggregation.AddToGroupRecords` | 3d-heatmap/utils/aggregateDataByDate.ts:5-7 | The group step keeps every group equal to its day's records. |
| `DateAggregation.AddToGroupStep` | 3d-heatmap/utils/aggregateDataByDate.ts:5-7 | The group step keeps the whole grouping correct for the records seen so far. |
| `DateAggregation.Group` | 3d-heatmap/utils/aggregateDataByDate.ts:5-7 | `group` by day has a group for exactly the days that occur. Each group holds exactly that day's records, in input order. Its keys are the days in first-occurrence order. |
| `DateAggregation.GroupSize` | 3d-heatmap/utils/aggregateDataByDate.ts:19-20 | `(grouped.get(day) \|\| []).length`: 0 for a day without a group, otherwise the size of its group. |
| `DateAggregation.GroupSizeIsCount` | 3d-heatmap/utils/aggregateDataByDate.ts:19-20 | `(grouped.get(day) \|\| []).length` is the number of records on that day. |
| `DateAggregation.RowsFor` | 3d-heatmap/utils/aggregateDataByDate.ts:16-22 | `dates.map(date => ({date, battles, explosions}))`: one row per date, in order, holding the date and the two categories' group sizes for it. |
| `DateAggregation.RowsForCoverDays` | 3d-heatmap/utils/aggregateDataByDate.ts:15-22 | Rows built over the distinct union of both categories' days carry exactly those days, in that order, with no day twice. Each row's day is a battle or explosion day. |
| `DateAggregation.RowsForCountDays` | 3d-heatmap/utils/aggregateDataByDate.ts:16-22 | Rows built from day-counting group sizes report each day's counts, and 0 exactly for a category absent that day. |
| `DateAggregation.AggregateDataByDate` | 3d-heatmap/utils/aggregateDataByDate.ts:3-25 | Every row's date is the day of some battle or explosion. Every such day appears among the row dates, and no date appears twice. `battles`/`explosions` count that day's battle/explosion records. A count is 0 exactly when that category has no record on the day. |
| `DateAggregation.EveryRecordHasRow` | 3d-heatmap/utils/aggregateDataByDate.ts:5-15 | Every battle's and every explosion's day has a row. The output is empty exactly when both inputs are empty. |
| `DateAggregation.AggregateDateOrder` | 3d-heatmap/utils/aggregateDataByDate.ts:15 | Row dates are the battle days in first-occurrence order, then the explosion-only days in first-occurrence order. |
| `DateAggregation.OccursOnce` | 3d-heatmap/utils/aggregateDataByDate.ts:15 | A day in a list of distinct days occurs exactly once. |
| `DateAggregation.OccursAbsent` | 3d-heatmap/utils/aggregateDataByDate.ts:15 | A day not listed occurs zero times. |
| `DateAggregation.SumCountsSnoc` | 3d-heatmap/utils/aggregateDataByDate.ts:19-20 | One more record adds one to the per-day count sum for each listing of its day. |
| `DateAggregation.SumCountsEmpty` | 3d-heatmap/utils/aggregateDataByDate.ts:19-20 | No records give zero counts. |
| `DateAggregation.SumCountsCoversAll` | 3d-heatmap/utils/aggregateDataByDate.ts:19-20 | Summing per-day counts over distinct days covering every record's day gives the number of records. |
| `DateAggregation.ColumnIsSumCounts` | 3d-heatmap/utils/aggregateDataByDate.ts:19-20 | A column whose entries count their row's day sums to the per-day count sum over the row dates. |
| `DateAggregation.RecordDaysListed` | 3d-heatmap/utils/aggregateDataByDate.ts:5-15 | Days that include every day key of the records include each record's day. |
| `DateAggregation.ColumnTotals` | 3d-heatmap/utils/aggregateDataByDate.ts:3-25 | The `battles` column sums to the number of battles, and the `explosions` column to the number of explosions. |
| `DateAggregation.OneBattleOneExplosionDays` | 3d-heatmap/utils/aggregateDataByDate.ts:15 | With one battle day and a different explosion day, the row dates are the battle day then the explosion day. |
| `DateAggregation.OneBattleOneExplosion` | 3d-heatmap/utils/aggregateDataByDate.ts:15-22 | One battle and one explosion on different days give two rows. Each category counts 0 on the other's day instead of the row being left out. |
| `DateAggregation.TwoDayExample` | 3d-heatmap/utils/aggregateDataByDate.ts:3-25 | A battle on 2023-01-01 and an explosion on 2023-01-02 give rows `{19358, 1, 0}` and `{19359, 0, 1}`, with days counted from 1970-01-01. |

## Left out

- String formatting is not modelled. `toFixed(2)` and `toLocaleDateString()`
  depend on floating-point rounding and on the locale and time zone. The
  model keeps the exact value each one formats (`Fixed2`, `LocaleDate`).
- JavaScript number semantics are not modelled. Fatalities and time values
  are unbounded integers and the average is an exact rational. Doubles, lost
  precision past 2^53 and `NaN` from unparsable fields are not modelled.
- Engine limits and invalid dates are not modelled:
  - `Math.max(...)` and `Math.min(...)` with a spread argument throw once
    the selection has more elements than the engine accepts as arguments.
  - `toISOString()` throws on an invalid `Date`.
- Record fields other than `fatalities` and `event_date` (`id`, longitude,
  latitude) are not read by the two functions and are not modelled.
- Spatial selection (hexagon binning, picking, brushing) happens inside
  deck.gl, configured in `3d-heatmap/app.tsx` and
  `3d-heatmap/utils/layerCreator.ts`; neither is part of this model. The
  `handleInteraction` callback referenced at `layerCreator.ts:37` is not
  part of this model either.
- Not modelled because they are rendering, I/O or configuration with no data
  logic:
  - the React/MUI widgets;
  - the deck.gl layers;
  - the D3 chart, including its own date sort and tick filter;
  - CSV/HTTP loading, DuckDB, the data fetch scripts and the build config.
