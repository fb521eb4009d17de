# Electric-vehicle dashboard: the data layer

`dashboard.js` loads a table of 2025 electric vehicles and draws four
charts. Three dropdowns (brand, segment, drivetrain) narrow the rows the
charts are drawn from. This project models, in Dafny, everything between
the loaded rows and the drawing code:

- **the row filter** `filterData`: keep the rows that match all three selections, each of which may be the wildcard `"all"`;
- **the dropdown option lists**: the distinct brands and the distinct segments, sorted;
- **the pie source**: one `{drivetrain, count}` entry per drivetrain, in order of first appearance;
- **the bar source**:
  - rank brands by row count, most first;
  - keep the first 15;
  - attach each brand's mean efficiency, with missing values skipped;
  - sort the kept brands by that mean;
- **the box-plot source**:
  - per segment, the sorted present acceleration values;
  - their type-7 quartiles, minimum, maximum and iqr;
  - the segments sorted by median.

A row is a `Vehicles.Record`. Its text fields are strings. Its numeric
fields are `Option<real>`, where `None` stands for the NaN that a field
which did not parse becomes. All arithmetic is exact (`real`).

d3's helpers are written out as small functions:

- `group`/`rollup`: `Grouping.Keys`, `Grouping.Group` and `Grouping.Tallies`. Keys come in order of first appearance, as in d3's keyed maps.
- `mean`: `Statistics.Mean`. It skips missing values and is `None` for an empty sample.
- `min` and `max`: `Statistics.Minimum` and `Statistics.Maximum`.
- `quantile`: `Statistics.Quantile`, the R-7 rule:
  - `p <= 0` or fewer than two values gives the least value;
  - `p >= 1` gives the greatest value;
  - otherwise, with h = (n − 1)·p, it interpolates between the sorted values at ⌊h⌋ and ⌊h⌋ + 1.

`Array.prototype.sort` with a comparator `(a, b) => key(a) - key(b)` is
stable. Its result is therefore the one key-ordered arrangement that keeps
equal-key elements in input order (`Sorting.StableSortUnique`).
`Sorting.SortByKey` computes that arrangement. `Sorting.SortInPlace` is
an in-place insertion sort on an `array`, proved to give the same result.

The code sorts in place at four points: the brand counts, the kept bars,
each acceleration sample and the segment list (dashboard.js:187, 193, 342,
364). The methods `BarChart.BarChartData` and `BoxPlot.BoxPlotData` do
those sorts on arrays with `SortInPlace`. They are proved equal to the
pure definitions `BarChart.BarSource` and `BoxPlot.BoxSource`, and the
lemmas state their properties about those definitions.

Modules, one file each: `Wrappers`, `Vehicles`, `Sequences`, `Sorting`,
`Arrays`, `StringOrder`, `Dropdowns`, `Filtering`, `Grouping`,
`Statistics`, `PieChart`, `BarChart`, `BoxPlot`.

## Model

| member | source | states |
|---|---|---|
| Filtering.FilterData | dashboard.js:59-69 | A row occurs in the result exactly as often as in the input when it matches all three selections, and not at all otherwise; the result is no longer than the input |
| Filtering.Matches | dashboard.js:64-68 | The predicate handed to `data.filter`: each selection is "all" or equals the row's field. A definition without a contract; its meaning for the result is stated by FilterData, FilterMembership and FilterIsSubsequence |
| Filtering.FilterMembership | dashboard.js:64-68 | A row is in the result iff it is in the input and each selection is "all" or equals the row's field |
| Filtering.MatchingIndices | dashboard.js:64-68 | The matching positions of the input, strictly increasing; a position is listed iff its row matches |
| Filtering.FilterIsSubsequence | dashboard.js:64-68 | The result is the input read at the matching positions in increasing order, so the filter keeps the input's order |
| Filtering.FilterKeepsMatchingRows | dashboard.js:64-68 | A sequence whose every row matches is returned unchanged |
| Filtering.FilterAllIsIdentity | dashboard.js:64-68 | With all three selections "all" the whole input is returned, in order |
| Filtering.FilterIdempotent | dashboard.js:64-68 | Filtering the result again with the same selections changes nothing |
| Sequences.Distinct | dashboard.js:33 | `[...new Set(xs)]` holds each element of xs exactly once and nothing else |
| Sequences.FirstOccurrences | dashboard.js:33 | The positions where a value appears for the first time, strictly increasing; a position is listed iff its value does not occur earlier |
| Sequences.DistinctIsFirstOccurrences | dashboard.js:33 | A Set keeps insertion order: the distinct list is the input read at its first-occurrence positions |
| StringOrder.LessIrreflexive | dashboard.js:33 | The default string order of `.sort()` never puts a string before itself |
| StringOrder.LessTransitive | dashboard.js:33 | The default string order is transitive |
| StringOrder.LessTotal | dashboard.js:33 | Of two different strings, one sorts before the other |
| StringOrder.Less | dashboard.js:33 | The order `.sort()` with no comparator puts the brand and segment options in (also line 41): character by character, a proper prefix first. A definition without a contract; LessIrreflexive, LessTransitive and LessTotal show it is a strict total order |
| StringOrder.InsertString | dashboard.js:33 | Inserting a string adds exactly that string |
| StringOrder.SortStrings | dashboard.js:33 | Sorting permutes the strings |
| StringOrder.InsertStringSorted | dashboard.js:33 | Inserting a new string into a strictly ascending list keeps it strictly ascending |
| StringOrder.SortStringsSorted | dashboard.js:33 | Sorting a duplicate-free list gives it in strictly ascending order |
| Dropdowns.FieldOptions | dashboard.js:33 | The option list of a field is strictly ascending, without duplicates, and holds a value iff some row has it |
| Dropdowns.BrandOptions | dashboard.js:33 | The brand options: every brand of the rows exactly once, ascending |
| Dropdowns.SegmentOptions | dashboard.js:41 | The segment options: every segment of the rows exactly once, ascending |
| Grouping.Keys | dashboard.js:337 | The group keys: each field value of the rows exactly once, and no other |
| Grouping.KeysInFirstAppearanceOrder | dashboard.js:337 | The keys come in order of first appearance: the i-th key is the field of the row at the i-th first-occurrence position |
| Grouping.Group | dashboard.js:337 | A group holds exactly the rows with that key, each as often as in the input |
| Grouping.Count | dashboard.js:185 | `v.length` of a key's group. A definition without a contract; CountPositive and CountIsOccurrences state its value |
| Grouping.CountPositive | dashboard.js:185 | A key's count is at least one iff some row has that key |
| Grouping.CountIsOccurrences | dashboard.js:185 | A key's count is the number of rows whose field is that key |
| Grouping.Tallies | dashboard.js:185-186 | `Array.from(d3.rollup(data, v => v.length, f), ...)`: one `{key, count}` entry per key. A definition; TalliesTotal, TalliesCoverKeys, CountIsOccurrences and KeysInFirstAppearanceOrder carry its properties |
| Grouping.TalliesTotal | dashboard.js:271-278 | The counts of a rollup sum to the number of rows: the groups partition the rows |
| Grouping.TalliesCoverKeys | dashboard.js:271-278 | The rollup's keys are the distinct field values, once each, and every count is at least one |
| PieChart.PieOneEntryPerDrivetrain | dashboard.js:271-278 | One pie entry per drivetrain occurring in the rows, no duplicates, none for an absent drivetrain |
| PieChart.PieInFirstAppearanceOrder | dashboard.js:271-278 | The pie entries come in order of first appearance of their drivetrain |
| PieChart.PieCountsPositive | dashboard.js:271-278 | Each pie count is the number of rows with that drivetrain, and is at least one |
| PieChart.PieCountsSum | dashboard.js:271-278 | The pie counts sum to the number of rows |
| PieChart.DrivetrainCounts | dashboard.js:271-278 | The pie source: the drivetrain rollup as `{key, count}` entries. A definition without a contract; PieOneEntryPerDrivetrain, PieInFirstAppearanceOrder, PieCountsPositive and PieCountsSum carry its properties |
| Sorting.Insert | dashboard.js:187 | Inserting an element adds exactly that element |
| Sorting.SortByKey | dashboard.js:187 | The sorted sequence is a permutation of the input ordered by key |
| Sorting.SortStable | dashboard.js:187 | For every key, the elements with that key keep their relative order |
| Sorting.StableSortUnique | dashboard.js:187 | Two key-ordered sequences that agree on the order within every key class are equal |
| Sorting.StableSortIsSortByKey | dashboard.js:187 | Any key-ordered arrangement that keeps every key class in input order is SortByKey's result |
| Sorting.SortSortedIsIdentity | dashboard.js:342 | Sorting an already ordered sequence leaves it unchanged |
| Sorting.SortKeepsDistinctBy | dashboard.js:364 | Sorting keeps elements with distinct labels distinct |
| Sorting.SortKeepsLabels | dashboard.js:364 | Sorting keeps the set of labels the elements carry |
| Sorting.InsertInPlace | dashboard.js:187 | Moving a[i] into the ordered suffix leaves the prefix alone and makes the suffix Insert(old a[i], old suffix) |
| Sorting.ShiftLeftWhileBelow | dashboard.js:187 | Shifts the run of suffix elements with smaller key one place left, returns the freed slot and changes nothing else |
| Sorting.SortInPlace | dashboard.js:187 | Sorting an array in place leaves in it exactly SortByKey of its old contents |
| Arrays.ToArray | dashboard.js:186 | `Array.from` (also line 340): a fresh array holding exactly the given sequence, so that the in-place sorts work on an array of their own |
| Statistics.Present | dashboard.js:341 | Dropping missing values keeps each present value exactly as often as it occurs |
| Statistics.PresentMember | dashboard.js:341 | A value is kept iff it was present in some row |
| Statistics.Minimum | dashboard.js:348 | The least value of a non-empty sample: a member that bounds every value from below; None for an empty sample |
| Statistics.Maximum | dashboard.js:349 | The greatest value of a non-empty sample: a member that bounds every value from above; None for an empty sample |
| Statistics.SumBounds | dashboard.js:176 | A sum of n values between lo and hi lies between n·lo and n·hi |
| Statistics.Mean | dashboard.js:176 | The mean skips missing values; it is defined iff some value is present, and then lies between their least and greatest |
| Statistics.MeanWithinRange | dashboard.js:176 | The mean of a non-empty sample lies between its minimum and maximum |
| Statistics.MeanBounds | dashboard.js:176 | If all values lie in [lo, hi], so does their mean |
| Statistics.Lerp | dashboard.js:344-346 | Interpolating between a <= b with a fraction in [0, 1] stays in [a, b] |
| Statistics.LerpMonotone | dashboard.js:344-346 | Interpolation between a <= b grows with the fraction |
| Statistics.SortAscending | dashboard.js:342 | `sort(d3.ascending)`: an ascending permutation of the sample, and an already ascending sample is unchanged |
| Statistics.TimesIsProduct | dashboard.js:344-346 | The repeated sum used for h equals (n - 1)·p |
| Statistics.TimesBounds | dashboard.js:344-346 | For 0 < p < 1, h = m·p lies in [0, m) |
| Statistics.TimesMonotone | dashboard.js:344-346 | h grows with p |
| Statistics.FloorInRange | dashboard.js:344-346 | For n >= 2 and 0 < p < 1 both ⌊h⌋ and ⌊h⌋ + 1 are positions of the sample |
| Statistics.Quantile | dashboard.js:344-346 | The type-7 quantile: defined iff the sample is non-empty, and then between the sample's minimum and maximum |
| Statistics.QuantileSorted | dashboard.js:344-346 | The type-7 quantile of a sorted sample lies between its first and last value |
| Statistics.InterpolateAt | dashboard.js:344-346 | The interpolated value lies between the sorted values at ⌊h⌋ and ⌊h⌋ + 1 |
| Statistics.QuantileOfSorted | dashboard.js:344-346 | The quantile of a sample is the quantile of its sorted copy |
| Statistics.QuantileOfAscending | dashboard.js:344-346 | On an already ascending sample the two quantile definitions agree |
| Statistics.MinimumIsFirst | dashboard.js:348-349 | The minimum is the first and the maximum the last value of the sorted sample |
| Statistics.QuantileMonotone | dashboard.js:344-346 | For p1 <= p2 the p1-quantile is at most the p2-quantile, so q1 <= median <= q3 |
| Statistics.QuantileSortedMonotone | dashboard.js:344-346 | The same monotonicity on a sorted sample |
| Statistics.InterpolateAtMonotone | dashboard.js:344-346 | Interpolating at a larger h gives a value at least as large |
| Statistics.QuartilesOfFourValues | dashboard.js:344-346 | The sample 7, 7, 9, 11 has quartiles 7, 8 and 9.5 |
| Statistics.QuartilesOfTwoValues | dashboard.js:344-346 | The sample 5, 6 has quartiles 5.25, 5.5 and 5.75 |
| BarChart.CountKey | dashboard.js:187 | The comparator `(a, b) => b.count - a.count` as the sort key −count. A definition without a contract; RankingDescending and RankingKeepsTieOrder state the order it gives |
| BarChart.EfficiencyKey | dashboard.js:193 | The comparator `(a, b) => a.efficiency - b.efficiency` as the sort key "mean efficiency". It gives 0.0 for a missing mean, but that stand-in is never compared: BarSource requires TopBrandsMeasured, so every kept entry has a mean. A definition without a contract; BarsAscending states the order it gives |
| BarChart.BrandMean | dashboard.js:174-178 | `brandEfficiency.get(brand)`: the mean efficiency of the brand's rows, missing values skipped. A definition without a contract; BarEfficiencyIsMean states what the bars get from it |
| BarChart.RankedBrands | dashboard.js:185-187 | The brand counts sorted by count, most first. A definition without a contract; RankingDescending, RankingKeepsTieOrder, RankedEntry, BrandIsRanked and RankingDistinct carry its properties |
| BarChart.TopBrands | dashboard.js:188 | The first min(15, n) ranked brands. A definition without a contract; BarCount and BarsHaveTheMostRows state what the slice keeps |
| BarChart.TopBrandEfficiencies | dashboard.js:189-192 | Each kept brand paired with its mean. A definition without a contract; BarIsTopEntry, TopEntryHasBar and BarEfficiencyIsMean carry its properties |
| BarChart.BarSource | dashboard.js:193 | The drawn bar list: the kept entries sorted by mean. A definition without a contract; BarCount, BarBrandsDistinct, BarsHaveTheMostRows, BarEfficiencyIsMean and BarsAscending carry its properties |
| BarChart.RankingDescending | dashboard.js:186-187 | The ranking is a permutation of the brand counts with counts non-increasing |
| BarChart.RankingKeepsTieOrder | dashboard.js:187 | Brands with equal counts keep their first-appearance order in the ranking |
| BarChart.RankedEntry | dashboard.js:186-187 | Every ranking entry is a brand of the rows with its own row count |
| BarChart.BrandIsRanked | dashboard.js:186-187 | Every brand of the rows has an entry in the ranking |
| BarChart.RankingDistinct | dashboard.js:186-187 | The ranking lists each brand once |
| BarChart.BarIsTopEntry | dashboard.js:193 | Every bar is one of the kept entries |
| BarChart.TopEntryHasBar | dashboard.js:193 | Every kept entry is one of the bars |
| BarChart.BarCount | dashboard.js:188 | There are min(15, number of brands) bars |
| BarChart.BarBrandsDistinct | dashboard.js:185-193 | The bars name distinct brands, each occurring in the rows |
| BarChart.BarsHaveTheMostRows | dashboard.js:185-188 | A brand without a bar has no more rows than any brand with one |
| BarChart.BarEfficiencyIsMean | dashboard.js:174-178 | Each bar's efficiency is its brand's mean over present values, and lies between their minimum and maximum |
| BarChart.BarsAscending | dashboard.js:193 | The bars are ordered by efficiency, lowest first |
| BarChart.BarChartData | dashboard.js:185-193 | The array version (sort counts in place, keep 15, attach means, sort in place by mean) returns exactly BarSource |
| BoxPlot.MedianKey | dashboard.js:364 | The comparator `(a, b) => a.median - b.median` as the sort key "median". It gives 0.0 for a missing summary, but that stand-in is never compared: BoxSource requires AllSegmentsMeasured, so every entry has a median. A definition without a contract; BoxesByMedian states the order it gives |
| BoxPlot.Accelerations | dashboard.js:341 | A segment's acceleration values with the NaN ones dropped. A definition without a contract; SampleIsSortedPresentValues states what it keeps |
| BoxPlot.CleanSample | dashboard.js:342 | Those values sorted ascending. A definition without a contract; SampleIsSortedPresentValues and SortedSample state its properties |
| BoxPlot.Summarize | dashboard.js:344-349 | q1, median, q3, iqr, min and max of a sample, undefined for an empty one. A definition without a contract; SummaryOrdered, EmptySampleHasNoSummary, SummaryOfFourValues and SummaryOfTwoValues carry its properties |
| BoxPlot.SegmentSummary | dashboard.js:340-361 | One segment's entry: its name, its sample and the sample's summary. A definition without a contract; SegmentsOnce and BoxSegmentsOnce carry its properties |
| BoxPlot.SegmentBoxes | dashboard.js:337-361 | One entry per segment, in order of first appearance. A definition without a contract; SegmentsOnce and SummarizeSegments carry its properties |
| BoxPlot.BoxSource | dashboard.js:364 | The drawn box list: the entries sorted by median. A definition without a contract; BoxSegmentsOnce, BoxSegmentsDistinct, BoxSegmentsCover, BoxesByMedian, TwoSegmentsExample and BoxPlotData carry its properties |
| BoxPlot.SampleIsSortedPresentValues | dashboard.js:341-342 | A segment's values are its present accelerations, with multiplicity, in ascending order |
| BoxPlot.SummaryOrdered | dashboard.js:344-349 | For a non-empty sorted sample: min = first <= q1 <= median <= q3 <= max = last, iqr = q3 - q1 >= 0, and the quartiles are the type-7 quantiles |
| BoxPlot.EmptySampleHasNoSummary | dashboard.js:344-349 | The summary is undefined exactly for an empty sample |
| BoxPlot.SegmentsOnce | dashboard.js:337-340 | The segment entries name the segments in first-appearance order, each once, each with its own sample and summary |
| BoxPlot.BoxIsSegmentEntry | dashboard.js:364 | Every box is the entry of its segment |
| BoxPlot.BoxSegmentsDistinct | dashboard.js:364 | No segment has two boxes |
| BoxPlot.BoxSegmentsCover | dashboard.js:337-364 | A segment has a box iff some row is in it |
| BoxPlot.BoxSegmentsOnce | dashboard.js:337-364 | Each segment of the rows gets exactly one box, carrying its own sample and summary |
| BoxPlot.BoxesByMedian | dashboard.js:364 | The boxes are ordered by median, lowest first |
| BoxPlot.SummaryOfFourValues | dashboard.js:344-349 | The sample 7, 7, 9, 11 is summarised as q1 7, median 8, q3 9.5, iqr 2.5, min 7, max 11 |
| BoxPlot.SummaryOfTwoValues | dashboard.js:344-349 | The sample 5, 6 is summarised as q1 5.25, median 5.5, q3 5.75, iqr 0.5, min 5, max 6 |
| BoxPlot.ExampleEntries | dashboard.js:337-361 | Segments first seen with samples 7, 7, 9, 11 and 5, 6 give those two summarised entries in that order |
| BoxPlot.MedianOrder | dashboard.js:364 | Of two entries the one with the lower median is put first |
| BoxPlot.SwappedByMedian | dashboard.js:364 | Two measured segments, the second with the lower median, are drawn in swapped order |
| BoxPlot.TwoSegmentsExample | dashboard.js:337-364 | With samples 7, 7, 9, 11 and then 5, 6, the 5, 6 segment is drawn first, with the summaries above |
| BoxPlot.SortedSample | dashboard.js:341-342 | Building a sample array and sorting it in place gives the sorted present values |
| BoxPlot.SummarizeSegments | dashboard.js:340-361 | The loop over the segments builds exactly their entries, in order |
| BoxPlot.BoxPlotData | dashboard.js:337-364 | The array version (entries built one by one, sorted in place by median) returns exactly BoxSource |

## Left out

- Rendering is not modelled: SVG, scales, axes, legends, bars, arcs, whiskers, tooltips, colour scales and the scatter plot (dashboard.js:17-30, 79-166, 195-262, 280-328, 366-468).
- The asynchronous CSV load, its error handler and the change listeners are not modelled (dashboard.js:2, 53-56, 470-472). They are I/O and event wiring.
- Reading the three selections from the page is not modelled (dashboard.js:60-62). `FilterData` takes them as parameters.
- Unary-plus coercion of the numeric fields is not modelled (dashboard.js:4-15). Rows arrive with each numeric field already `Some(value)` or `None`, and JavaScript's ToNumber quirks are left out; for example `+""` is 0, not NaN.
- IEEE-754 floating point is not modelled. Sums, means and quantiles are exact `real` arithmetic, so rounding is left out.
- The sort at dashboard.js:181-182 is not modelled. Its result is overwritten at line 186.
- Comparing strings by UTF-16 code units is not modelled. `StringOrder.Less` compares Dafny characters (Unicode scalar values). The two orders differ only for characters outside the Basic Multilingual Plane.
- BarChart.BarSource: requires every kept brand to have at least one efficiency value (`TopBrandsMeasured`). Otherwise the comparator at line 193 compares `undefined` and yields NaN, and the order it gives is left unspecified.
- BarChart.BarChartData: carries the same `TopBrandsMeasured` precondition as BarSource, for the same reason.
- BoxPlot.BoxSource: requires every segment to have at least one acceleration value (`AllSegmentsMeasured`). Otherwise the comparator at line 364 sees an undefined median, and that order is left unspecified.
- BoxPlot.BoxPlotData: carries the same `AllSegmentsMeasured` precondition as BoxSource, for the same reason.
- Groups whose cleaned sample is empty are not dropped, because the code at dashboard.js:340-361 does not drop them. Such an entry is kept, with `None` for its summary, where d3 gives `undefined` quartiles, minimum and maximum.
- Statistics.Quantile: uses a full sort of the sample where d3 uses quickselect. The two give the same order statistics.
- Statistics.Quantile: computes h = (n − 1)·p as the repeated sum `Times(n - 1, p)`. `Statistics.TimesIsProduct` proves that the sum equals the product.
- Array.prototype.sort's own algorithm is not modelled. A comparator `(a, b) => key(a) - key(b)` is modelled as a stable sort by `key`, and `b.count - a.count` uses the key −count. `Sorting.StableSortUnique` shows that every stable sort gives the same result.
