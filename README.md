# Chart reduction pipeline — a Dafny model

This project models the `Chart` React component of `src/components/Chart.js`.
The component draws a time series with d3. Before anything is drawn it reduces
the raw series `[[x, y], ...]`:

- it keeps the entries whose value is a number other than NaN (the validity
  filter);
- it keeps every `stride`-th of those, with `stride = max(1, floor(n / 200))`
  (stride sampling);
- it drops values outside `[q1 - 1.5 iqr, q3 + 1.5 iqr]` (the IQR outlier
  filter), but only uses the filtered series when more than 50 points remain,
  falling back to the sampled series otherwise;
- it sizes the plot from the container, pads the y domain (10% for one series,
  15% for three) and, for three series, lays out a legend.

A series whose first value is an array is a multi-series chart. Columns 0, 1
and 2 are projected out of each entry and reduced separately. The stride is
computed from the raw length, and the y domain from the outlier-filtered
columns. The component also registers a debounced `resize` handler, unless its
first render throws. The handler re-renders 100 ms after the last resize
event, and cleanup removes it.

The model is split into these modules:

- `Seqs` (seqs.dfy): order-preserving subsequence, `filter` and `map`.
- `Values` (values.dfy): the input as values. A cell is `Null`, `Undefined`,
  `NaN`, `Num(real)` or `Other`. `ColumnReadings` is the multi-series
  projection `d[1][k]`. It returns `None` when the projection throws a
  `TypeError`, which happens when a scalar null or undefined is indexed.
- `Stats` (stats.dfy): the d3 statistics the pipeline calls.
  - `d3.quantile` is linear interpolation between the order statistics of the
    sorted values.
  - `d3.extent`, `d3.min` and `d3.max` are `None` on an empty array. For
    `d3.extent`, `None` stands for the `[undefined, undefined]` d3 returns;
    src/components/Chart.js:103 and 106-111 then compute NaN domain ends from
    it.
- `Sampling` (sampling.dfy): the stride and the index filter.
- `Reduction` (reduction.dfy): the validity filter, the outlier filter and the
  fallback for one series.
- `Layout` (layout.dfy): the plot frame and view box, padded domains, scales
  and the legend rows.
- `Chart` (chart.dfy): one render pass as a value. `Render` returns the frame,
  the scales, the points of each line path and the legend, or the `TypeError`
  outcome. It returns these instead of the SVG nodes d3 would append.
- `Resize` (resize.dfy): the effect's debounce as a class. It has a listener
  flag, the `resizeTimeout` handle and the instance's pending timers, with the
  methods `Mount`, `Resize`, `Fire` and `Cleanup`.
- `ChartCases` (chart_cases.dfy): two concrete render passes over the series
  `[[0,1],[1,2],[2,100],[3,3],[4,4]]`.

The model reproduces these behaviours of the code as written:

- A zero value range gives zero padding, so the domain is a single point.
- Sampling is not capped at 200 points. The code keeps up to 399.
- The multi-series y domain is computed from the filtered columns, not from the
  lines drawn. When the fallback fires, a drawn outlier can lie outside the
  domain (`ChartCases.SpikeOutsideMultiDomain`).

## Model

| member | source | states |
|---|---|---|
| Seqs.FilterExact | src/components/Chart.js:88-90 | `filter` keeps exactly the elements satisfying the predicate, in their order (a subsequence), and as many as satisfy it |
| Values.IsValidValue | src/components/Chart.js:71-73 | `d[1] !== null && typeof d[1] === "number" && !isNaN(d[1])` holds for every number except NaN (the model has no infinities, see Left out) |
| Values.ScalarReading | src/components/Chart.js:71-73 | the single-series view of an entry keeps its x, and its value passes the check exactly when it is a scalar number other than NaN (an array is an object to `typeof`) |
| Values.ColumnCell | src/components/Chart.js:159 | `d[1][k]` throws exactly on a scalar null or undefined, and gives a number other than NaN exactly when the value is an array holding one at index k |
| Values.ColumnReadings | src/components/Chart.js:158-166 | the projection of column k throws exactly when some entry throws; otherwise it gives one reading per entry, in order, with that entry's x and `d[1][k]` |
| Stats.Sort | src/components/Chart.js:82-83 | the values d3.quantile orders are returned ascending and as a permutation of the input |
| Stats.SortUnique | src/components/Chart.js:82-83 | any ascending permutation of the values is the sorted sequence, so the order statistics do not depend on the input order |
| Stats.Extent | src/components/Chart.js:103-106 | `d3.extent` is `None`, standing for `[undefined, undefined]`, exactly on an empty array; otherwise both ends are values of the array and every value lies between them |
| Stats.SortedEnds | src/components/Chart.js:82-83 | the first and last order statistics that `d3.quantile` interpolates between are the minimum and the maximum of the values, so the quartiles stay within them |
| Stats.Quantile | src/components/Chart.js:82-83 | `d3.quantile` is undefined exactly on an empty array |
| Stats.QuantileWithin | src/components/Chart.js:82-83 | every quantile of a non-empty array lies between its minimum and its maximum |
| Stats.QuantileMonotone | src/components/Chart.js:82-84 | a larger probability never gives a smaller quantile, so q1 <= q3 and the IQR is never negative |
| Sampling.StrideFor | src/components/Chart.js:77 | the stride is at least 1, is 1 below 400 points, and from 200 points on is the k with 200k <= n < 200(k+1) |
| Sampling.SampleShape | src/components/Chart.js:78 | the index filter is s[0], s[k], s[2k], ...: length ceil(n/k), j-th element s[jk], every multiple of k present, s[0] first, order-preserving subsequence |
| Sampling.SampleCountOwnLength | src/components/Chart.js:75-78 | with the stride taken from the series' own length, a series below 400 points is kept whole, one of 200 or more keeps at least 200, and no sample exceeds 399 points |
| Sampling.SampleCountRawLength | src/components/Chart.js:170-173 | with the stride taken from the raw length and applied to a shorter filtered column, the sample still stays below 400 and is the whole column when the raw length is below 400 |
| Reduction.ValidPointsExact | src/components/Chart.js:71-73 | a point is kept by the validity filter exactly when the input holds a reading with that x and that number (NaN excluded) |
| Reduction.ValidPointsInOrder | src/components/Chart.js:71-73 | the kept points, read back, are a subsequence of the readings (order kept, nothing inserted), and there are as many as there are valid readings |
| Reduction.ValidPointsEmpty | src/components/Chart.js:158-166 | the filter leaves nothing exactly when no reading holds a number other than NaN |
| Reduction.OutlierBounds | src/components/Chart.js:81-86 | the bounds are undefined exactly on an empty series; otherwise lower bound <= q1 <= q3 <= upper bound |
| Reduction.FilterOutliers | src/components/Chart.js:176-184 | `filterOutliers` keeps exactly the points whose value lies within the bounds, inclusive, as an order-preserving subsequence, with one copy for each such point of the input (its length is the number of input points within the bounds) |
| Reduction.KeepsInterquartile | src/components/Chart.js:88-90 | every point whose value lies between the two quartiles survives the outlier filter |
| Reduction.ReduceSpec | src/components/Chart.js:78-98 | sample = every stride-th valid point; filtered = the sample within the bounds, as many points as the sample has within them; final = filtered exactly when it has more than 50 points, the sample otherwise; final is a subsequence of the valid points |
| Reduction.FinalEmpty | src/components/Chart.js:78-98 | the final series is empty exactly when no point is valid |
| Reduction.FinalNotSparse | src/components/Chart.js:98 | the final series is the whole sample or has more than 50 points |
| Reduction.SmallSampleUnfiltered | src/components/Chart.js:97-98 | a sample of at most 50 points is always drawn as it is |
| Layout.PlotFrame | src/components/Chart.js:15-32 | width = max(cw - 200, 300), height = max((ch or 400) - 90, 200), both at least their minimum; view box = plot plus margins and never smaller than the container |
| Layout.Padded | src/components/Chart.js:106-111 | the padded domain is defined exactly when the extent is, has the same midpoint, and is (1 + 2 fraction) times as wide |
| Layout.PaddedContains | src/components/Chart.js:107-111 | the padded domain contains the extent, strictly for a positive range, and is a single point for a zero range (no widening) |
| Layout.LegendFor | src/components/Chart.js:272-326 | the legend sits at (width - 100, 0); row k has its swatch from (0, 20k) to (20, 20k), its label "Series k+1" at (25, 20k + 4) and the k-th palette colour; colours and labels are distinct |
| Chart.SingleLine | src/components/Chart.js:69-98 | the single-series line is an order-preserving subsequence of the valid points, below 400 points, and all of them when there are fewer than 400 and the filter leaves at most 50 |
| Chart.SingleDomains | src/components/Chart.js:101-112 | x domain = [min x, max x] of the final points; y domain = their value extent padded by 10% and holding every final value; both undefined exactly when no point is valid (the final series is empty exactly then); y range inverted |
| Chart.SingleRendered | src/components/Chart.js:39-44 | a series whose first value is not an array is drawn as one line in #2196F3, through an order-preserving selection of its valid points, fewer than 400 of them |
| Chart.MultiStages | src/components/Chart.js:156-201 | a multi-series pass that does not throw reduces exactly three columns |
| Chart.MultiLines | src/components/Chart.js:186-201 | line k is a subsequence of column k's valid points, below 400 points, in the colour of legend row k |
| Chart.MultiRendered | src/components/Chart.js:39-42 | a series whose first value is an array and whose columns all project is drawn as a multi-series chart in the container's frame; each of its three lines runs through an order-preserving selection of that column's valid points, fewer than 400 of them, in the colour of the matching legend row |
| Chart.MultiDomains | src/components/Chart.js:204-224 | the x domain is exactly [min x, max x] over the raw entries: both ends are some entry's x and every x lies between them; the y domain is [min, max] of the filtered values of the three columns padded by 15%, so it holds each of them, and it is undefined exactly when no column kept a filtered value |
| Chart.Render | src/components/Chart.js:7-46 | an absent or empty series draws nothing (the guard comes before the clear, so an earlier drawing stays); otherwise the frame is set, the chart is multi-series exactly when the first value is an array, and the pass throws exactly when it is multi-series and some entry's value is a scalar null or undefined |
| Resize.ResizeCoordinator.Mount | src/components/Chart.js:48-60 | mounting renders once for the current size, with no timer pending; the handler is registered exactly when that render did not throw, since a throw ends the effect before `addEventListener` |
| Resize.ResizeCoordinator.Resize | src/components/Chart.js:53-58 | a resize event cancels the pending timer and leaves exactly one timer, due 100 ms later, held in `resizeTimeout`; after cleanup it changes nothing |
| Resize.ResizeCoordinator.Fire | src/components/Chart.js:55-57 | the pending timer, once due, renders once for the container's size at that time and is gone; a cancelled or early timer does nothing |
| Resize.ResizeCoordinator.Cleanup | src/components/Chart.js:63-66 | cleanup unregisters the handler and leaves no timer pending, so no later render can happen |
| Resize.DebounceScenario | src/components/Chart.js:48-66 | three resize events within 100 ms render once, for the size when the last timer runs; events and timers after cleanup render nothing; when the first render throws, nothing renders again |
| ChartCases.SpikeKeptBySingleFallback | src/components/Chart.js:97-98 | `[[0,1],[1,2],[2,100],[3,3],[4,4]]` is drawn through all five points: the outlier filter leaves too few, so the sample is used |
| ChartCases.SpikeOutsideMultiDomain | src/components/Chart.js:196-224 | the same values as column 0 of a multi-series chart: the drawn line keeps (2, 100), but the y domain comes from the filtered values and ends below 100 |
| ChartCases.SpikyQuartiles | src/components/Chart.js:178-179 | the quartiles of 1, 2, 100, 3, 4 are 2 and 4 (ranks 1 and 3 fall on order statistics) |
| ChartCases.EmptyReduced | src/components/Chart.js:171-188 | a column with no valid point leaves every stage empty |
| ChartCases.NullEntryThrows | src/components/Chart.js:39-42 | `[[0,[1,2,3]],[1,null]]` is multi-series, and projecting its null value throws, so the render pass ends in a `TypeError` |

## Left out

- DOM and SVG mutation through d3 is not modelled: clearing the svg, appending groups and paths, and setting attributes. Neither are axes, ticks and grid lines, nor the `curveMonotoneX` path strings. A render pass returns the numbers handed to d3 instead.
- `console.log` output (src/components/Chart.js:93-95 and 191-193) is left out because it has no effect on the drawing.
- When the first render throws, the effect returns no cleanup function to React. `Resize.ResizeCoordinator.Cleanup` can still be called in the model, and then changes nothing observable: no handler is registered and no timer is pending.
- React is not modelled: `useRef`, effect re-runs when `data` changes, and the returned JSX. The effect is modelled once per mount by `Resize.ResizeCoordinator`.
- The browser's clock, timer queue and event dispatch are parameters. `now` is passed to `Resize` and `Fire`, and the container size is passed to `Fire`.
- Numbers are reals, not IEEE-754 doubles. There is no rounding and no infinity, and NaN is a separate `Cell` variant. JavaScript's `Infinity` and `-Infinity` pass the validity check at src/components/Chart.js:72, but no `Cell` holds them, so a series with an infinite value is not modelled. An x coordinate is always a real.
- Every non-number value (a string, a boolean, an object) is one `Other` cell. They all fail the validity check the same way. Indexing such a scalar in a multi-series pass gives `Other`, not the character or property JavaScript would return.
- `d3.quantile`'s own code is not part of this model. `Stats.Quantile` is the linear interpolation between order statistics that d3 documents, over a functional insertion sort. This is how d3 6 and later (d3-array 2 and later) compute it, selecting the order statistics from the unsorted input. The d3 version in use is not part of this model. d3 5 and earlier (d3-array 1) read the order statistics from the input as given, which for the unsorted values 1, 2, 100, 3, 4 would give the quartiles 2 and 3 instead of 2 and 4.
- The line generator's `defined((d) => d[1] !== null)` (src/components/Chart.js:119 and 231) is not modelled. A `Point` holds a real, so the predicate holds for every point that reaches a line.
- `Chart.MultiStages` states only the number of columns in its own contract. The meaning of each column is stated by `Chart.MultiLines`.
- src/App.js is not part of this model. It is data fetching and page state.
