# TimeSeries in Dafny

This project models the core of the Go package `timeseries`. The core is the in-memory time series in `timeseries.go` and the container of four series in `tsContainers.go`.

A `TimeSeries` is an ordered list of `DataUnit`s. Each unit holds:

- an instant, in nanoseconds;
- the time since the previous unit;
- a measure;
- the measure change since the previous unit;
- a provenance tag.

A series also carries a description and a cached summary: its length and its first and last instants.

The series operations are:

- appending a unit and emptying the series;
- sorting by instant, ascending or descending, or by measure;
- completing the deltas;
- trimming outliers by quantile;
- extracting the measure and instant columns;
- deleting a unit by swap-and-truncate;
- concatenating two series.

The statistics helpers work on plain measures:

- the running mean and the minimum and maximum;
- the mean that skips the "no data" measure 0;
- removing "no data" measures from a population.

The frequency helpers read a specification such as `"5s"`. They round a start time down to the bucket grid and add one interval.

A `TsContainer` keeps an original, a cleaned, a resampled and a rejected series. It offers:

- trimming by fixed limits, by quantiles or by z-score; every trimmed unit is logged, tagged, in the rejected series;
- resetting the cleaned series to the original;
- downsampling the cleaned series onto a fixed time grid, aggregating each bucket by `avg`, `max`, `min` or `last` and filling empty stretches with "no data" points.

## Modules

| File | Module | Contents |
|---|---|---|
| `sorting.dfy` | `Sorting` | `SortBy`, an insertion sort by a real key that stands in for Go's `sort.Slice`; sortedness; counting below and above a cut |
| `strconv.dfy` | `Strconv` | `Atoi` with its error discarded, and `Itoa` |
| `frequency.dfy` | `Frequency` | duration specifications, rounding of start times, interval arithmetic |
| `series.dfy` | `Series` | `DataUnit`, `SummaryStat`, the class `TimeSeries` and its methods, `DelFast`, `Merge` |
| `statistics.dfy` | `Statistics` | `Mean`, `Bounds`, `Tmean`, `CleanForNA` |
| `containers.dfy` | `Containers` | the class `TsContainer`, its cleaning policies and `Downsampling` |

**How state is modelled:**

- Series and containers are classes whose fields the methods reassign.
- `CleanForNA` and `sort.Float64s` work in place on an `array<real>`, as the Go code does on its slice.
- The trimming operations (`SliceAndComplete`, `CleanedForOutliers`, `SliceCleaned` and the three cleaning policies) return a `Status`, which is either `Done` or `Panic(fault)`, and stop where Go would panic. Other operations require inputs on which Go does not panic; "## Left out" lists them.

**How the specifications are stated:**

- Trimming is specified by the ghost predicate `Containers.Trimmed`. It relates:
  - the units before the trim;
  - the measure-sorted series;
  - the low and high cut counts;
  - the series and rejected log after the trim.
- Downsampling is specified by `Containers.Resampling`. It relates the cleaned series to the emitted points through a ghost *plan*. The plan says, for each emitted point, either:
  - which samples `[lo, hi)` were aggregated into it and which sample closed the bucket; or
  - after which sample a "no data" point was inserted.

## Model

| member | source | states |
|---|---|---|
| Sorting.SortBy | timeseries.go:59-63 | the result is a permutation of the input, of the same length, ordered by the key |
| Sorting.SortedKeysDetermined | timeseries.go:196-200 | any key-ordered permutation has the same key column, so an unstable sort still fixes the sorted measures |
| Sorting.AscendingUnique | timeseries.go:196-200 | two ascending sequences with the same multiset are equal |
| Sorting.BelowIsPrefix | timeseries.go:180-187 | in an ascending sequence, the values below a cut are exactly the first `CountBelow` ones |
| Sorting.AboveIsSuffix | timeseries.go:180-187 | in an ascending sequence, the values above a cut are exactly the last `CountAbove` ones |
| Strconv.Atoi | timeseries.go:344 | the result lies in the int64 range; malformed text reads as 0 |
| Strconv.AtoiItoa | timeseries.go:344 | `Atoi` reads back every non-negative int64 written in decimal |
| Frequency.InterpretDurationParam | timeseries.go:343-347 | the unit is the last character; the magnitude is an int64 |
| Frequency.InterpretRoundTrip | timeseries.go:343-347 | digits followed by a unit character split back into that magnitude and that unit |
| Frequency.AddDurationParam | timeseries.go:325-342 | adds magnitude times the unit length for s, m and h; a `d` or unknown unit leaves the time unchanged |
| Frequency.Truncate | timeseries.go:272-276 | for a positive duration, rounds down to the largest multiple at or below the time; otherwise the time is unchanged |
| Frequency.RoundedStartTime | timeseries.go:266-283 | s, m and h round down onto the interval grid; `d` subtracts magnitude days; any other unit leaves the time unchanged |
| Frequency.FirstEdgeHoldsStart | tsContainers.go:60-64 | with a positive interval, the first bucket `[edge - interval, edge)` contains the first instant, and the edge lies on the grid |
| Frequency.PositiveInterval | timeseries.go:325-342 | the interval is positive exactly when the unit is s, m or h and the magnitude is positive |
| Series.TimeSeries.constructor | timeseries.go:34-38 | a new series is empty, with an empty description and a zero summary |
| Series.TimeSeries.AddDataUnit | timeseries.go:54-56 | the unit is appended at the end and nothing else changes |
| Series.TimeSeries.Reset | timeseries.go:118-120 | the series becomes empty; description and summary are untouched |
| Series.TimeSeries.SortChronAsc | timeseries.go:59-63 | the series becomes a permutation of itself in ascending instant order |
| Series.TimeSeries.SortChronDesc | timeseries.go:65-69 | the series becomes a permutation of itself in non-increasing instant order |
| Series.TimeSeries.SortMeasAsc | timeseries.go:196-200 | the series becomes a permutation of itself in ascending measure order; its measure column is the sorted measures |
| Series.TimeSeries.ComputeSummaryStat | timeseries.go:122-143 | the summary holds the length and the instants of the first and last units |
| Series.TimeSeries.Complete | timeseries.go:161-170 | the series becomes its chronological sort with the first unit's deltas zeroed, each inner unit's deltas taken from its predecessor, and the last unit unchanged; the result is chronological and the summary is refreshed |
| Series.CompletionKeepsOrder | timeseries.go:161-170 | completing a chronological series keeps it chronological |
| Series.TimeSeries.SliceAndComplete | timeseries.go:191-192 | reslicing with bounds outside the series panics and leaves it unchanged; an empty slice panics inside `Complete`; otherwise the kept units are sorted and completed |
| Series.CountOutliers | timeseries.go:180-187 | over all measures but the last, counts those strictly below the low bound and those strictly above the high bound |
| Series.TimeSeries.CleanedForOutliers | timeseries.go:172-194 | the series is sorted by measure; the low and high counts are the measures strictly beyond the two quantiles among all units but the last; the kept range is `[low, n - high + 1)` |
| Series.TimeSeries.MeasToArr | timeseries.go:212-218 | returns the measure column in series order |
| Series.TimeSeries.ChronToArr | timeseries.go:219-225 | returns the instant column in series order |
| Series.SwapRemoveMultiset | timeseries.go:229-231 | moving the last unit into slot `i` and dropping the last slot removes exactly the unit at `i` |
| Series.DelFast | timeseries.go:228-233 | the series loses exactly the unit at `i`, one occurrence, and ends chronologically sorted |
| Series.Merge | timeseries.go:236-245 | a fresh series holding the first input's units followed by the second's; neither input is modified |
| Statistics.Mean | timeseries.go:299-308 | the running sum divided by the count is the average of the measures |
| Statistics.AverageWithinBounds | timeseries.go:299-308 | the average of a non-empty population lies between its minimum and maximum |
| Statistics.Bounds | timeseries.go:309-323 | returns two members of a non-empty population that bound every measure; an empty population gives 0 and 0 |
| Statistics.Tmean | timeseries.go:284-298 | it fails exactly when every measure is "no data"; otherwise the count is the number of other measures and the mean is their average |
| Statistics.SumIgnoresNihil | timeseries.go:287-291 | summing with or without the "no data" measures gives the same total |
| Statistics.SumConcat | timeseries.go:284-298 | the sum of a concatenation is the sum of the parts |
| Statistics.SortFloat64s | timeseries.go:247 | the array becomes an ascending permutation of itself |
| Statistics.AppendInPlace | timeseries.go:257 | returns the prefix up to the cut followed by the suffix from the first positive measure; the array holds that result followed by its own old tail |
| Statistics.CleanedCounts | timeseries.go:251-262 | the cleaned population keeps every measure other than "no data" with its multiplicity; it keeps no "no data" measure if a measure is negative, otherwise at most one |
| Statistics.KeptSorted | timeseries.go:257 | a prefix and a later suffix of an ascending population form an ascending population |
| Statistics.CleanForNA | timeseries.go:246-265 | the array is sorted; with no positive measure the result is empty; otherwise it is ascending and drops "no data" measures as stated above, and the array holds the result followed by the old tail |
| Containers.TsContainer.constructor | tsContainers.go:12-17 | four distinct, empty series |
| Containers.TsContainer.RejectLow | tsContainers.go:136-140 | the count is the maximal prefix with measures below `min`, stopping one short of the end; those units are appended, tagged, to the rejected series |
| Containers.TsContainer.RejectHigh | tsContainers.go:141-146 | the count is the maximal suffix with measures above `max`; those units are appended, tagged, highest first, to the rejected series |
| Containers.TsContainer.SliceCleaned | tsContainers.go:131-151 | the cleaned series is measure-sorted, cut, logged and resliced to `[low, n - high + 1)` as `Trimmed` states |
| Containers.TsContainer.DeviceLimitsCleaning | tsContainers.go:20-23 | trims with the given limits and refreshes the summary when the trim completes |
| Containers.TsContainer.PercCleaning | tsContainers.go:34-41 | trims with the `perc` and `1 - perc` quantiles of the sorted measures and refreshes the summary when the trim completes |
| Containers.TsContainer.ZscoreCleaning | tsContainers.go:43-52 | trims with `(mean - sd) * lvl` and `(mean + sd) * lvl`, exposed as ghost outputs, and refreshes the summary when the trim completes |
| Containers.CutsDetermined | tsContainers.go:136-146 | on a sorted series, the high count is the number of measures above `max`; the low count is the number below `min`, capped at `n - 1` when every measure is below |
| Containers.CutsDisjoint | tsContainers.go:136-146 | with `min <= max` the low and high cuts do not overlap; when they do overlap, the overlapping unit lies above `max` and below `min` |
| Containers.KeptWithinLimits | tsContainers.go:147-148 | when the low scan stopped before the last unit, every unit between the cuts has its measure within `[min, max]` |
| Containers.LowestHighOutlierKept | tsContainers.go:147-148 | when a unit lies above `max`, the kept series has `n - high - low + 1` units and still holds the lowest of those rejected above `max` |
| Containers.TrimmedChronological | tsContainers.go:147-149 | a trim that completes leaves the cleaned series in chronological order |
| Containers.NoHighOutlierPanics | tsContainers.go:147-148 | with nothing above `max` the slice bound is `n + 1`: the trim panics and the cleaned series stays measure-sorted |
| Containers.TsContainer.ResetCleanedSeries | tsContainers.go:27-31 | the resampled series is emptied; the cleaned series takes the original's units, description and summary; the original and rejected series are untouched |
| Containers.AggregateWithinBounds | tsContainers.go:79-107 | every recognised rule aggregates a non-empty bucket to a value between its minimum and maximum |
| Containers.Aggregated | tsContainers.go:76-115 | the emitted point carries the bucket edge and the rule's aggregate; an empty bucket or unknown rule gives "no data" |
| Containers.TsContainer.Gather | tsContainers.go:71-75 | collects, from `i`, the measures of the samples strictly before the edge, and stops at the first sample at or past it or at the last sample |
| Containers.TsContainer.FillGaps | tsContainers.go:117-125 | appends "no data" points one interval apart until the next sample falls before the next edge, or until two samples remain |
| Containers.TsContainer.EmitBucket | tsContainers.go:67-127 | one pass of the outer loop extends the resampling plan and moves past the closing sample |
| Containers.TsContainer.Downsampling | tsContainers.go:54-128 | the cleaned series becomes chronological; the resampled series is emptied and then filled as `Resampling` states |
| Containers.OnGrid | tsContainers.go:116-124 | the k-th emitted point lies at `first edge + k * interval` |
| Containers.ResampledAscending | tsContainers.go:116-124 | emitted points are strictly ascending in time |
| Containers.ScanAdvances | tsContainers.go:126 | later points never revisit samples an earlier point consumed |
| Containers.ClosingSampleSkipped | tsContainers.go:71-126 | the sample that closes a bucket is aggregated by no bucket |
| Containers.BucketWithinInterval | tsContainers.go:63-75 | every aggregated sample lies in `[edge - interval, edge)` of its bucket |
| Containers.PrefixDetermined | tsContainers.go:67-127 | two plans for the same series agree point by point over their common length |
| Containers.LastCloses | tsContainers.go:67-127 | the last point is the only one whose closing sample is among the final two |
| Containers.ResamplingDetermined | tsContainers.go:67-127 | the series, grid and rule determine the resampled series completely |
| Containers.LastSampleDropped | tsContainers.go:67-75 | samples 10, 20 and 30 at 0, 1 and 2 s, averaged every 5 s, give a single point of 15 at 5 s |
| Containers.NoGapsBeforeLastSample | tsContainers.go:67-125 | two samples of 5 twenty seconds apart, resampled every 5 s by last value, give a single point of 5 at 5 s and no "no data" points |

## Left out

- Printing is not modelled: `Print`, `PrintSummaryStat`, `OutputTotxt`, the container's debug lines, `SliceCleaned`'s `PrintSummaryStat` and the two `fmt.Println` calls of `CleanedForOutliers`. Nor is writing to files.
- The floating-point summary statistics filled by `ComputeSummaryStat` are not modelled: the mean and standard deviation of the time steps, and the minimum, maximum, mean and standard deviation of the measures. Only the length and the first and last instants are.
- gonum's `stat.Quantile`, `stat.Mean` and `stat.StdDev` are function parameters with no stated properties. The model does not depend on their definitions.
- Measures are mathematical reals. The model does not capture float64 rounding, NaN or infinities.
- Instants are integer nanoseconds from Go's zero instant. The model does not capture `time.Time` locations and monotonic readings, or int64 overflow of durations. `AddDate(0,0,-n)` is modelled as subtracting `n` fixed days.
- The cause strings of `DeviceLimitsCleaning`, `PercCleaning` and `ZscoreCleaning` are not modelled. They embed `time.Now()` and `%.2f`-formatted numbers, so they are passed in as the `cause` parameter.
- Specification strings are sequences of characters. Go slices them by byte, so a multi-byte last character is not modelled.
- Go's `sort.Slice` is unstable pattern-defeating quicksort. The model stands in an insertion sort.
- Series.TimeSeries.SortChronAsc, Series.TimeSeries.SortChronDesc, Series.TimeSeries.SortMeasAsc: these contracts state only a key-ordered permutation. They do not fix the order among equal keys, because Go does not either.
- Containers.TsContainer.ResetCleanedSeries: aliasing is not modelled. In Go the cleaned series then shares the original's backing array. The model copies the units, so a later in-place update of the cleaned series is not seen in the original.
- Containers.TsContainer.SliceCleaned, Series.TimeSeries.CleanedForOutliers: a slice bound past the length but within the capacity of the backing array is legal in Go and exposes a stale unit. The model treats every bound past the length as `Panic(SliceBoundsOutOfRange)`. For `CleanedForOutliers` this is the usual path, taken whenever no measure among all but the last lies above the upper quantile.
- Containers.TsContainer.Downsampling: the model requires a non-empty cleaned series and a positive interval. The Go code panics on an empty series. With a non-positive interval, the gap loop never ends once it is entered. It is entered when the cleaned series has at least three samples and, after some bucket with `i < n - 2`, the next edge lies before sample `i + 1`. Runs with a non-positive interval that never enter the gap loop end in Go, but the model does not cover them.
- Series.TimeSeries.Complete, Series.TimeSeries.ComputeSummaryStat, Series.DelFast: these members require inputs on which Go does not panic. `Complete` and `ComputeSummaryStat` require a non-empty series, because Go indexes unit 0. `DelFast` requires an index within the series. The model does not capture the panics on an empty series or an out-of-range index.
- Frequency.InterpretDurationParam, Frequency.AddDurationParam, Frequency.RoundedStartTime, Containers.TsContainer.Downsampling: the model requires a non-empty specification string. On `""` Go panics, because the slice `freqq[0:len(freqq)-1]` is out of range. The model does not capture that panic.
- The `datemax` variable of `Downsampling`, used only in a debug print, and the blank import of `lib/pq` are left out.

## Behaviour kept as written

The model follows the code even where its behaviour is surprising. The expected behaviour would be:

- a trim partitions the units into kept and rejected;
- each bucket aggregates every sample in `[edge - interval, edge)`;
- empty stretches get "no data" points;
- every unit gets its deltas.

Each departure from that is stated by a member:

- Containers.TsContainer.SliceCleaned: the kept range ends at `n - counthigh + 1`, one past the high cut. Kept and rejected units together therefore number `n + 1` rather than `n`, because the lowest unit above `max` is both kept and rejected (`Containers.LowestHighOutlierKept`). With nothing above `max` the bound exceeds the length and the trim panics (`Containers.NoHighOutlierPanics`).
- Series.TimeSeries.Complete: the last unit's deltas are never filled in.
- Containers.TsContainer.Downsampling drops samples:
  - the final sample is never aggregated;
  - the sample that closes a bucket is aggregated by no bucket;
  - a series of two samples never reaches the gap-filling loop.

  For example, samples 10, 20 and 30 averaged every 5 s give 15, not 20 (`Containers.LastSampleDropped`). Two samples twenty seconds apart give no "no data" points (`Containers.NoGapsBeforeLastSample`).
- Frequency.AddDurationParam: a `d` specification adds no time. `Frequency.RoundedStartTime` does recognise `d`.
