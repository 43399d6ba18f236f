/**
  The container of tsContainers.go: four series kept side by side. `Original`
  is the raw series and is never changed; `Cleaned` is trimmed by the cleaning
  policies, which log what they remove in `Rejected`; `Resampled` is rebuilt
  from `Cleaned` on a regular time grid.
 */
module Containers {
  import opened Sorting
  import opened Series
  import opened Statistics
  import opened Frequency
  import opened Strconv

  /** Each unit of `s`, stamped with `cause` as its provenance. */
  function Tag(s: seq<DataUnit>, cause: string): (r: seq<DataUnit>)
    ensures |r| == |s|
    ensures forall j :: 0 <= j < |s| ==> r[j] == s[j].(Origin := cause)
  {
    seq(|s|, j requires 0 <= j < |s| => s[j].(Origin := cause))
  }

  /** The last `k` units of `s`, last one first. */
  function TopDown(s: seq<DataUnit>, k: int): (r: seq<DataUnit>)
    requires 0 <= k <= |s|
    ensures |r| == k
    ensures forall j :: 0 <= j < k ==> r[j] == s[|s| - 1 - j]
  {
    seq(k, j requires 0 <= j < k => s[|s| - 1 - j])
  }

  /**
    `low` is what the first scan of `SliceCleaned` counts on the measure-sorted
    `s`: units from the bottom that lie below `min`, stopping at the first that
    does not or at the last unit, which is never counted.
   */
  ghost predicate LowCut(s: seq<DataUnit>, min: real, low: int) {
    && 0 <= low <= |s| && (low < |s| || low == 0)
    && (forall j :: 0 <= j < low ==> s[j].Meas < min)
    && (low < |s| - 1 ==> min <= s[low].Meas)
  }

  /** `high` is what the second scan counts: units from the top that lie above `max`, stopping at the first that does not. */
  ghost predicate HighCut(s: seq<DataUnit>, max: real, high: int) {
    && 0 <= high <= |s|
    && (forall j :: |s| - high <= j < |s| ==> max < s[j].Meas)
    && (high < |s| ==> s[|s| - 1 - high].Meas <= max)
  }

  ghost predicate Cuts(s: seq<DataUnit>, min: real, max: real, low: int, high: int) {
    LowCut(s, min, low) && HighCut(s, max, high)
  }

  lemma TagAppend(s: seq<DataUnit>, u: DataUnit, cause: string)
    ensures Tag(s + [u], cause) == Tag(s, cause) + [u.(Origin := cause)]
  {
  }

  /**
    The effect of `SliceCleaned(min, max, cause)` on a cleaned series `before`
    and a rejected log `rejBefore`: the series is sorted by measure into
    `bySort`; the `low` bottom units, then the `high` top units from the top
    down, are appended to the log stamped with `cause`; the series is then
    re-sliced to `[low : len - high + 1]` and completed.
   */
  ghost predicate Trimmed(before: multiset<DataUnit>, rejBefore: seq<DataUnit>, min: real, max: real, cause: string,
                          bySort: seq<DataUnit>, low: int, high: int, chron: seq<DataUnit>,
                          after: seq<DataUnit>, rejAfter: seq<DataUnit>, status: Status) {
    && SortedBy(bySort, MeasKey) && multiset(bySort) == before
    && Cuts(bySort, min, max, low, high)
    && rejAfter == rejBefore + Tag(bySort[..low], cause) + Tag(TopDown(bySort, high), cause)
    && Resliced(bySort, low, |bySort| - high + 1, chron, after, status)
  }

  lemma TrimmedIntro(before: multiset<DataUnit>, rejBefore: seq<DataUnit>, min: real, max: real, cause: string,
                     bySort: seq<DataUnit>, low: int, high: int, chron: seq<DataUnit>,
                     after: seq<DataUnit>, rejAfter: seq<DataUnit>, status: Status)
    requires SortedBy(bySort, MeasKey) && multiset(bySort) == before
    requires LowCut(bySort, min, low) && HighCut(bySort, max, high)
    requires rejAfter == rejBefore + Tag(bySort[..low], cause) + Tag(TopDown(bySort, high), cause)
    requires Resliced(bySort, low, |bySort| - high + 1, chron, after, status)
    ensures Trimmed(before, rejBefore, min, max, cause, bySort, low, high, chron, after, rejAfter, status)
  {
  }

  /** A z-score limit: a bound of the one-deviation band around the mean, multiplied by the level. */
  function Scaled(bound: real, lvl: real): (r: real) {
    bound * lvl
  }

  /** One emitted point of `Downsampling`: a bucket that gathered `s[lo..hi]`, or a gap after sample `after`. */
  datatype Emission = Bucket(lo: int, hi: int) | Gap(after: int)

  /** The index the scan stands on once the emission is made. */
  function Closer(e: Emission): (r: int) {
    match e
    case Bucket(_, hi) => hi
    case Gap(a) => a
  }

  /** The measure a bucket gets under the aggregation rule: nothing gathered or an unknown rule gives `Nihil`. */
  function Aggregate(rule: string, vec: seq<real>): (r: real) {
    if vec == [] then Nihil
    else if rule == "avg" then Average(vec)
    else if rule == "max" then MaxOf(vec)
    else if rule == "min" then MinOf(vec)
    else if rule == "last" then vec[|vec| - 1]
    else Nihil
  }

  /**
    The point `du` emitted for `e` is right for the chronologically sorted `s`:
    a bucket gathers the longest run from `lo` of samples before its edge,
    stopping before the last sample; a gap lies before the next sample.
   */
  ghost predicate EntryOk(s: seq<DataUnit>, du: DataUnit, e: Emission, rule: string) {
    match e
    case Bucket(lo, hi) =>
      && 0 <= lo <= hi < |s| && lo < |s| - 1
      && (forall j :: lo <= j < hi ==> s[j].Chron < du.Chron)
      && (hi == |s| - 1 || du.Chron <= s[hi].Chron)
      && du == DataUnit(du.Chron, 0, Aggregate(rule, MeasOf(s[lo..hi])), 0.0, "")
    case Gap(a) =>
      && 0 <= a && a + 2 < |s|
      && du.Chron < s[a + 1].Chron
      && du == DataUnit(du.Chron, 0, Nihil, 0.0, "")
  }

  /**
    How the point `du` for `e` follows the point `prev` for `pe`: one interval
    later; a gap stays on the same sample; a bucket starts one past the sample
    the scan stood on, and only once the edge has reached that sample.
   */
  ghost predicate LinkOk(s: seq<DataUnit>, prev: DataUnit, du: DataUnit, pe: Emission, e: Emission, step: int) {
    && du.Chron == prev.Chron + step
    && match e
       case Gap(a) => a == Closer(pe)
       case Bucket(lo, _) => lo == Closer(pe) + 1 && 0 <= lo < |s| && s[lo].Chron <= du.Chron
  }

  /** The points emitted so far, with their plan, follow the resampling scheme from the first edge `e0`. */
  ghost predicate PlanSoFar(s: seq<DataUnit>, r: seq<DataUnit>, plan: seq<Emission>, e0: int, step: int, rule: string) {
    && |plan| == |r|
    && (r != [] ==> r[0].Chron == e0 && plan[0].Bucket? && plan[0].lo == 0)
    && (forall k :: 0 <= k < |r| ==> EntryOk(s, r[k], plan[k], rule))
    && (forall k :: 1 <= k < |r| ==> LinkOk(s, r[k - 1], r[k], plan[k - 1], plan[k], step))
  }

  /**
    `r` is the whole resampling of the chronologically sorted `s`: nothing for
    fewer than two samples, otherwise emissions until the scan reaches the
    last sample or the one before it.
   */
  ghost predicate Resampling(s: seq<DataUnit>, r: seq<DataUnit>, plan: seq<Emission>, e0: int, step: int, rule: string) {
    && PlanSoFar(s, r, plan, e0, step, rule)
    && (r == [] <==> |s| <= 1)
    && (r != [] ==> Closer(plan[|plan| - 1]) + 2 >= |s|)
  }

  /**
    The state of the outer scan of `Downsampling` at sample `i` with the next
    edge `mainant`: the points so far follow the scheme, the scan stands one
    past the sample the last emission closed on, and that edge has reached
    sample `i`.
   */
  ghost predicate Scanning(s: seq<DataUnit>, r: seq<DataUnit>, plan: seq<Emission>, e0: int, step: int, rule: string,
                           i: int, mainant: int) {
    && PlanSoFar(s, r, plan, e0, step, rule)
    && (plan == [] ==> i == 0 && mainant == e0)
    && (plan != [] ==> i == Closer(plan[|plan| - 1]) + 1 && mainant == r[|plan| - 1].Chron + step)
    && (plan != [] && 0 <= i < |s| - 1 ==> s[i].Chron <= mainant)
  }

  /** When the outer scan stops, the emitted points are the whole resampling. */
  lemma ScanDone(s: seq<DataUnit>, r: seq<DataUnit>, plan: seq<Emission>, e0: int, step: int, rule: string,
                 i: int, mainant: int)
    requires Scanning(s, r, plan, e0, step, rule, i, mainant) && i >= |s| - 1
    ensures Resampling(s, r, plan, e0, step, rule)
  {
    if r != [] {
      assert EntryOk(s, r[0], plan[0], rule);
    }
  }

  /**
    The state of the gap scan after the sample `i`: the points so far follow
    the scheme, the last emission closed on `i`, and `next` is the edge after it.
   */
  ghost predicate Gapping(s: seq<DataUnit>, r: seq<DataUnit>, plan: seq<Emission>, e0: int, step: int, rule: string,
                          i: int, next: int) {
    && PlanSoFar(s, r, plan, e0, step, rule)
    && plan != [] && i == Closer(plan[|plan| - 1]) && 0 <= i < |s|
    && next == r[|plan| - 1].Chron + step
  }

  /** A `Nihil` point at `next`, before the sample after `i`, extends the scheme. */
  lemma GapStep(s: seq<DataUnit>, r: seq<DataUnit>, plan: seq<Emission>, e0: int, step: int, rule: string, i: int, next: int)
    requires Gapping(s, r, plan, e0, step, rule, i, next) && i < |s| - 2 && next < s[i + 1].Chron
    ensures Gapping(s, r + [DataUnit(next, 0, Nihil, 0.0, "")], plan + [Gap(i)], e0, step, rule, i, next + step)
  {
    Extend(s, r, plan, e0, step, rule, DataUnit(next, 0, Nihil, 0.0, ""), Gap(i));
  }

  lemma Extend(s: seq<DataUnit>, r: seq<DataUnit>, plan: seq<Emission>, e0: int, step: int, rule: string, du: DataUnit, e: Emission)
    requires PlanSoFar(s, r, plan, e0, step, rule)
    requires EntryOk(s, du, e, rule)
    requires r == [] ==> du.Chron == e0 && e.Bucket? && e.lo == 0
    requires r != [] ==> LinkOk(s, r[|r| - 1], du, plan[|plan| - 1], e, step)
    ensures PlanSoFar(s, r + [du], plan + [e], e0, step, rule)
  {
    var r', plan' := r + [du], plan + [e];
    forall k | 0 <= k < |r'| ensures EntryOk(s, r'[k], plan'[k], rule) {
      if k < |r| {
        assert r'[k] == r[k] && plan'[k] == plan[k];
      }
    }
    forall k | 1 <= k < |r'| ensures LinkOk(s, r'[k - 1], r'[k], plan'[k - 1], plan'[k], step) {
      if k < |r| {
        assert r'[k] == r[k] && plan'[k] == plan[k] && r'[k - 1] == r[k - 1] && plan'[k - 1] == plan[k - 1];
      }
    }
  }

  /**
    On a measure-sorted series the two scans of `SliceCleaned` count the units
    below `min` (but at most all except the last) and the units above `max`.
   */
  lemma CutsDetermined(s: seq<DataUnit>, min: real, max: real, low: int, high: int)
    requires SortedBy(s, MeasKey) && Cuts(s, min, max, low, high)
    ensures high == CountAbove(MeasOf(s), max)
    ensures |s| >= 1 ==> low == (if CountBelow(MeasOf(s), min) < |s| then CountBelow(MeasOf(s), min) else |s| - 1)
  {
    var ms := MeasOf(s);
    assert SortedBy(ms, Id);
    BelowIsPrefix(ms, min);
    AboveIsSuffix(ms, max);
    var cb, ca := CountBelow(ms, min), CountAbove(ms, max);
    assert low == 0 || ms[low - 1] < min;
    assert high == 0 || max < ms[|s| - high];
    if low < |s| - 1 {
      assert !(ms[low] < min);
    } else if |s| >= 2 {
      assert ms[|s| - 2] < min;
    }
    if high < |s| {
      assert !(ms[|s| - 1 - high] > max);
    }
  }

  /**
    The two scans overlap only when `max < min`, where a unit both below `min`
    and above `max` is logged twice; with `min <= max` no unit is logged twice.
   */
  lemma CutsDisjoint(s: seq<DataUnit>, min: real, max: real, low: int, high: int)
    requires Cuts(s, min, max, low, high)
    ensures low + high > |s| ==> max < s[|s| - high].Meas < min
    ensures min <= max ==> low + high <= |s|
  {
    var j := |s| - high;
    assert j < low ==> max < s[j].Meas < min;
  }

  /**
    On a measure-sorted series, once the low scan stopped on a unit of at
    least `min`, every unit from there up to the high cut lies within the limits.
   */
  lemma KeptWithinLimits(s: seq<DataUnit>, min: real, max: real, low: int, high: int)
    requires SortedBy(s, MeasKey) && Cuts(s, min, max, low, high) && low < |s| - 1
    ensures forall j :: low <= j < |s| - high ==> min <= s[j].Meas <= max
  {
    forall j | low <= j < |s| - high
      ensures min <= s[j].Meas <= max
    {
      assert MeasKey(s[low]) <= MeasKey(s[j]);
      assert MeasKey(s[j]) <= MeasKey(s[|s| - 1 - high]);
    }
  }

  /**
    The kept window `[low : len - high + 1]` reaches one unit past what the
    scans leave: when there are high outliers, the lowest of them stays in the
    cleaned series although it is also logged as rejected.
   */
  lemma LowestHighOutlierKept(s: seq<DataUnit>, min: real, max: real, low: int, high: int,
                              chron: seq<DataUnit>, after: seq<DataUnit>, status: Status)
    requires Cuts(s, min, max, low, high) && Resliced(s, low, |s| - high + 1, chron, after, status)
    requires status == Done && high >= 1
    ensures |after| == |s| - high - low + 1
    ensures s[|s| - high] in multiset(chron) && max < s[|s| - high].Meas
  {
    var w := s[low..|s| - high + 1];
    assert w[|s| - high - low] == s[|s| - high];
    assert s[|s| - high] in multiset(w);
    assert |chron| == |multiset(chron)| == |multiset(w)| == |w|;
  }

  /** A trimming that completes leaves the kept units in chronological order. */
  lemma TrimmedChronological(s: seq<DataUnit>, low: int, high: int, chron: seq<DataUnit>, after: seq<DataUnit>, status: Status)
    requires Resliced(s, low, high, chron, after, status) && status == Done
    ensures SortedBy(after, ChronKey)
  {
    CompletionKeepsOrder(after, chron);
  }

  /**
    With no unit above `max` the upper slice bound is one past the end of the
    series: the slice panics and the series stays as sorted.
   */
  lemma NoHighOutlierPanics(s: seq<DataUnit>, min: real, max: real, low: int, high: int,
                            chron: seq<DataUnit>, after: seq<DataUnit>, status: Status)
    requires Cuts(s, min, max, low, high) && Resliced(s, low, |s| - high + 1, chron, after, status)
    requires high == 0
    ensures status == Panic(SliceBoundsOutOfRange) && after == s
  {
  }

  /** The `k`-th resampled point lies `k` intervals after the first edge. */
  lemma {:induction false} OnGrid(s: seq<DataUnit>, r: seq<DataUnit>, plan: seq<Emission>, e0: int, step: int, rule: string, k: int)
    requires PlanSoFar(s, r, plan, e0, step, rule) && 0 <= k < |r|
    ensures r[k].Chron == e0 + k * step
  {
    if k > 0 {
      OnGrid(s, r, plan, e0, step, rule, k - 1);
      assert LinkOk(s, r[k - 1], r[k], plan[k - 1], plan[k], step);
      assert (k - 1) * step + step == k * step;
    }
  }

  /** With a positive interval the resampled points are in strictly increasing time order. */
  lemma {:induction false} ResampledAscending(s: seq<DataUnit>, r: seq<DataUnit>, plan: seq<Emission>, e0: int, step: int, rule: string, k: int, k': int)
    requires PlanSoFar(s, r, plan, e0, step, rule) && step > 0 && 0 <= k < k' < |r|
    ensures r[k].Chron < r[k'].Chron
  {
    assert LinkOk(s, r[k' - 1], r[k'], plan[k' - 1], plan[k'], step);
    if k < k' - 1 {
      ResampledAscending(s, r, plan, e0, step, rule, k, k' - 1);
    }
  }

  /** The scan never moves back: a later emission closes on a later or the same sample, and a later bucket starts past it. */
  lemma {:induction false} ScanAdvances(s: seq<DataUnit>, r: seq<DataUnit>, plan: seq<Emission>, e0: int, step: int, rule: string, k: int, k': int)
    requires PlanSoFar(s, r, plan, e0, step, rule) && 0 <= k < k' < |r|
    ensures Closer(plan[k]) <= Closer(plan[k'])
    ensures plan[k'].Bucket? ==> Closer(plan[k]) < plan[k'].lo
  {
    assert LinkOk(s, r[k' - 1], r[k'], plan[k' - 1], plan[k'], step);
    assert EntryOk(s, r[k'], plan[k'], rule);
    if k < k' - 1 {
      ScanAdvances(s, r, plan, e0, step, rule, k, k' - 1);
    }
  }

  /** The sample a bucket closes on is aggregated in no bucket, and neither is the last sample. */
  lemma ClosingSampleSkipped(s: seq<DataUnit>, r: seq<DataUnit>, plan: seq<Emission>, e0: int, step: int, rule: string, k: int, k': int)
    requires PlanSoFar(s, r, plan, e0, step, rule) && 0 <= k < |r| && 0 <= k' < |r|
    requires plan[k].Bucket? && plan[k'].Bucket?
    ensures !(plan[k'].lo <= plan[k].hi < plan[k'].hi)
    ensures plan[k'].hi <= |s| - 1
  {
    assert EntryOk(s, r[k'], plan[k'], rule);
    if k < k' {
      ScanAdvances(s, r, plan, e0, step, rule, k, k');
    } else if k' < k {
      ScanAdvances(s, r, plan, e0, step, rule, k', k);
      assert EntryOk(s, r[k], plan[k], rule);
    }
  }

  /**
    Each bucket of a resampling of a chronologically sorted series gathers
    samples from the interval that ends at its point: `[edge - interval, edge)`.
   */
  lemma BucketWithinInterval(s: seq<DataUnit>, r: seq<DataUnit>, plan: seq<Emission>, freqq: string, rule: string, k: int, j: int)
    requires |s| >= 1 && |freqq| >= 1 && Interval(freqq) > 0 && SortedBy(s, ChronKey)
    requires PlanSoFar(s, r, plan, FirstEdge(s[0].Chron, freqq), Interval(freqq), rule)
    requires 0 <= k < |r| && plan[k].Bucket? && plan[k].lo <= j < plan[k].hi
    ensures r[k].Chron - Interval(freqq) <= s[j].Chron < r[k].Chron
  {
    var step, lo := Interval(freqq), plan[k].lo;
    assert EntryOk(s, r[k], plan[k], rule);
    if k == 0 {
      FirstEdgeHoldsStart(s[0].Chron, freqq);
    } else {
      assert LinkOk(s, r[k - 1], r[k], plan[k - 1], plan[k], step);
      assert EntryOk(s, r[k - 1], plan[k - 1], rule);
      if plan[k - 1].Bucket? {
        assert ChronKey(s[lo - 1]) <= ChronKey(s[lo]);
      }
    }
    assert ChronKey(s[lo]) <= ChronKey(s[j]);
  }

  /** The gathering scan's stopping rule fixes where a bucket ends. */
  lemma GatherDetermined(s: seq<DataUnit>, lo: int, hi: int, hi': int, edge: int)
    requires 0 <= lo <= hi < |s| && lo <= hi' < |s|
    requires forall j :: lo <= j < hi ==> s[j].Chron < edge
    requires hi == |s| - 1 || edge <= s[hi].Chron
    requires forall j :: lo <= j < hi' ==> s[j].Chron < edge
    requires hi' == |s| - 1 || edge <= s[hi'].Chron
    ensures hi == hi'
  {
  }

  /** Two plans that follow the scheme agree on every position both have. */
  lemma {:induction false} PrefixDetermined(s: seq<DataUnit>, r: seq<DataUnit>, plan: seq<Emission>,
                                            r': seq<DataUnit>, plan': seq<Emission>, e0: int, step: int, rule: string, k: int)
    requires PlanSoFar(s, r, plan, e0, step, rule) && PlanSoFar(s, r', plan', e0, step, rule)
    requires 0 <= k < |r| && k < |r'|
    ensures r[k] == r'[k] && plan[k] == plan'[k]
  {
    assert EntryOk(s, r[k], plan[k], rule) && EntryOk(s, r'[k], plan'[k], rule);
    if k > 0 {
      PrefixDetermined(s, r, plan, r', plan', e0, step, rule, k - 1);
      assert LinkOk(s, r[k - 1], r[k], plan[k - 1], plan[k], step);
      assert LinkOk(s, r'[k - 1], r'[k], plan'[k - 1], plan'[k], step);
    }
    if plan[k].Bucket? && plan'[k].Bucket? {
      GatherDetermined(s, plan[k].lo, plan[k].hi, plan'[k].hi, r[k].Chron);
    }
  }

  /** An emission is the last one exactly when the scan then stands on one of the last two samples. */
  lemma LastCloses(s: seq<DataUnit>, r: seq<DataUnit>, plan: seq<Emission>, e0: int, step: int, rule: string, k: int)
    requires Resampling(s, r, plan, e0, step, rule) && 0 <= k < |r|
    ensures k == |r| - 1 <==> Closer(plan[k]) + 2 >= |s|
  {
    if k < |r| - 1 {
      assert LinkOk(s, r[k], r[k + 1], plan[k], plan[k + 1], step);
      assert EntryOk(s, r[k + 1], plan[k + 1], rule);
    }
  }

  /** The resampling of a series is unique: `Resampling` specifies `Downsampling` completely. */
  lemma ResamplingDetermined(s: seq<DataUnit>, r: seq<DataUnit>, plan: seq<Emission>,
                             r': seq<DataUnit>, plan': seq<Emission>, e0: int, step: int, rule: string)
    requires Resampling(s, r, plan, e0, step, rule) && Resampling(s, r', plan', e0, step, rule)
    ensures r == r' && plan == plan'
  {
    var m := if |r| < |r'| then |r| else |r'|;
    if m > 0 {
      PrefixDetermined(s, r, plan, r', plan', e0, step, rule, m - 1);
      LastCloses(s, r, plan, e0, step, rule, m - 1);
      LastCloses(s, r', plan', e0, step, rule, m - 1);
    }
    forall k | 0 <= k < |r| && k < |r'|
      ensures r[k] == r'[k] && plan[k] == plan'[k]
    {
      PrefixDetermined(s, r, plan, r', plan', e0, step, rule, k);
    }
  }

  /** The specification "5s" reads as five seconds, and its first edge from the zero instant is at five seconds. */
  lemma FiveSeconds()
    ensures InterpretDurationParam("5s") == (5, "s")
    ensures Interval("5s") == 5 * Second && FirstEdge(0, "5s") == 5 * Second
  {
    assert "5s"[..1] == "5" && "5s"[1..] == "s";
    assert DigitsValue("5") == 5;
    assert Atoi("5") == 5;
  }

  /** Three samples one second apart from the zero instant, measuring 10, 20 and 30. */
  function ThreeSeconds(): (r: seq<DataUnit>) {
    [DataUnit(0, 0, 10.0, 0.0, ""), DataUnit(Second, 0, 20.0, 0.0, ""), DataUnit(2 * Second, 0, 30.0, 0.0, "")]
  }

  /**
    Resampling `ThreeSeconds()` every five seconds by average gives one point
    of 15 at the five-second edge: the third sample lies in the same interval
    but, being the last sample, is never gathered.
   */
  lemma LastSampleDropped(r: seq<DataUnit>, plan: seq<Emission>)
    requires Resampling(ThreeSeconds(), r, plan, FirstEdge(0, "5s"), Interval("5s"), "avg")
    ensures r == [DataUnit(5 * Second, 0, 15.0, 0.0, "")]
  {
    var s := ThreeSeconds();
    FiveSeconds();
    var e0 := FirstEdge(0, "5s");
    var r0, p0 := [DataUnit(5 * Second, 0, 15.0, 0.0, "")], [Bucket(0, 2)];
    assert MeasOf(s[0..2]) == [10.0, 20.0];
    assert [10.0, 20.0][..1] == [10.0] && [10.0][..0] == [];
    assert Sum([10.0, 20.0]) == 30.0;
    assert EntryOk(s, r0[0], p0[0], "avg");
    ResamplingDetermined(s, r, plan, r0, p0, e0, Interval("5s"), "avg");
  }

  /** Two samples twenty seconds apart from the zero instant, both measuring 5. */
  function TwentySecondsApart(): (r: seq<DataUnit>) {
    [DataUnit(0, 0, 5.0, 0.0, ""), DataUnit(20 * Second, 0, 5.0, 0.0, "")]
  }

  /**
    Resampling `TwentySecondsApart()` every five seconds by last value gives a
    single point: the first sample's bucket; the gap scan stops before the last
    two samples, so no `Nihil` points follow and the second sample is never gathered.
   */
  lemma NoGapsBeforeLastSample(r: seq<DataUnit>, plan: seq<Emission>)
    requires Resampling(TwentySecondsApart(), r, plan, FirstEdge(0, "5s"), Interval("5s"), "last")
    ensures r == [DataUnit(5 * Second, 0, 5.0, 0.0, "")]
  {
    var s := TwentySecondsApart();
    FiveSeconds();
    var e0 := FirstEdge(0, "5s");
    var r0, p0 := [DataUnit(5 * Second, 0, 5.0, 0.0, "")], [Bucket(0, 1)];
    assert MeasOf(s[0..1]) == [5.0];
    assert EntryOk(s, r0[0], p0[0], "last");
    ResamplingDetermined(s, r, plan, r0, p0, e0, Interval("5s"), "last");
  }

  /** Buckets are emitted only for rules the aggregation knows; such a point lies within its bucket's measures. */
  lemma AggregateWithinBounds(rule: string, vec: seq<real>)
    requires vec != [] && (rule == "avg" || rule == "max" || rule == "min" || rule == "last")
    ensures MinOf(vec) <= Aggregate(rule, vec) <= MaxOf(vec)
  {
    AverageWithinBounds(vec);
  }

  /**
    The point a bucket with measures `vec` gets at `edge`: the rule selects the
    package's `Mean`, the upper or lower `Bounds`, or the last measure.
   */
  method Aggregated(vec: seq<real>, rule: string, edge: int) returns (du: DataUnit)
    ensures du == DataUnit(edge, 0, Aggregate(rule, vec), 0.0, "")
  {
    var obsmin, obsmax := Bounds(vec);
    if |vec| != 0 {
      var obslast := vec[|vec| - 1];
      if rule == "avg" {
        var m := Mean(vec);
        du := DataUnit(edge, 0, m, 0.0, "");
      } else if rule == "max" {
        du := DataUnit(edge, 0, obsmax, 0.0, "");
      } else if rule == "min" {
        du := DataUnit(edge, 0, obsmin, 0.0, "");
      } else if rule == "last" {
        du := DataUnit(edge, 0, obslast, 0.0, "");
      } else {
        du := DataUnit(edge, 0, Nihil, 0.0, "");
      }
    } else {
      du := DataUnit(edge, 0, Nihil, 0.0, "");
    }
  }

  class TsContainer {
    const Original: TimeSeries
    const Cleaned: TimeSeries
    const Resampled: TimeSeries
    const Rejected: TimeSeries

    /** The four series are four distinct objects, as the four struct fields of Go are. */
    ghost predicate Valid()
      reads this
    {
      && Original != Cleaned && Original != Resampled && Original != Rejected
      && Cleaned != Resampled && Cleaned != Rejected
      && Resampled != Rejected
    }

    /** The zero value of the Go struct: four empty series. */
    constructor ()
      ensures Valid()
      ensures fresh(Original) && fresh(Cleaned) && fresh(Resampled) && fresh(Rejected)
      ensures Original.DataSeries == [] && Cleaned.DataSeries == [] && Resampled.DataSeries == [] && Rejected.DataSeries == []
    {
      Original := new TimeSeries();
      Cleaned := new TimeSeries();
      Resampled := new TimeSeries();
      Rejected := new TimeSeries();
    }

    /** The first scan: logs the bottom units below `min`, never the last unit. */
    method RejectLow(min: real, cause: string) returns (countlow: int)
      requires Valid()
      modifies Rejected`DataSeries
      ensures LowCut(Cleaned.DataSeries, min, countlow)
      ensures Rejected.DataSeries == old(Rejected.DataSeries) + Tag(Cleaned.DataSeries[..countlow], cause)
    {
      ghost var s := Cleaned.DataSeries;
      countlow := 0;
      var i := 0;
      while i < |Cleaned.DataSeries| - 1 && Cleaned.DataSeries[i].Meas < min
        invariant 0 <= i <= |s| && (i < |s| || i == 0)
        invariant countlow == i
        invariant forall j :: 0 <= j < i ==> s[j].Meas < min
        invariant Rejected.DataSeries == old(Rejected.DataSeries) + Tag(s[..i], cause)
        modifies Rejected`DataSeries
      {
        countlow := countlow + 1;
        Rejected.AddDataUnit(Cleaned.DataSeries[i]);
        var last := |Rejected.DataSeries| - 1;
        Rejected.DataSeries := Rejected.DataSeries[last := Rejected.DataSeries[last].(Origin := cause)];
        assert s[..i + 1] == s[..i] + [s[i]];
        TagAppend(s[..i], s[i], cause);
        i := i + 1;
      }
    }

    /** The second scan: logs the top units above `max`, from the top down. */
    method RejectHigh(max: real, cause: string) returns (counthigh: int)
      requires Valid()
      modifies Rejected`DataSeries
      ensures HighCut(Cleaned.DataSeries, max, counthigh)
      ensures Rejected.DataSeries == old(Rejected.DataSeries) + Tag(TopDown(Cleaned.DataSeries, counthigh), cause)
    {
      ghost var s := Cleaned.DataSeries;
      var n := |Cleaned.DataSeries|;
      counthigh := 0;
      var i := n - 1;
      while i >= 0 && Cleaned.DataSeries[i].Meas > max
        invariant -1 <= i < n
        invariant counthigh == n - 1 - i
        invariant forall j :: i < j < n ==> max < s[j].Meas
        invariant Rejected.DataSeries == old(Rejected.DataSeries) + Tag(TopDown(s, counthigh), cause)
        modifies Rejected`DataSeries
      {
        counthigh := counthigh + 1;
        Rejected.AddDataUnit(Cleaned.DataSeries[i]);
        var last := |Rejected.DataSeries| - 1;
        Rejected.DataSeries := Rejected.DataSeries[last := Rejected.DataSeries[last].(Origin := cause)];
        assert TopDown(s, counthigh) == TopDown(s, counthigh - 1) + [s[i]];
        TagAppend(TopDown(s, counthigh - 1), s[i], cause);
        i := i - 1;
      }
    }

    /**
      Sorts `Cleaned` by measure, logs the low units below `min` and the high
      units above `max` in `Rejected` stamped with `cause`, then keeps
      `[countlow : len - counthigh + 1]` of `Cleaned` and completes it.
     */
    method SliceCleaned(min: real, max: real, cause: string)
      returns (status: Status, ghost bySort: seq<DataUnit>, ghost low: int, ghost high: int, ghost chron: seq<DataUnit>)
      requires Valid()
      modifies Cleaned`DataSeries, Cleaned`SumStat, Rejected`DataSeries
      ensures Trimmed(multiset(old(Cleaned.DataSeries)), old(Rejected.DataSeries), min, max, cause,
                      bySort, low, high, chron, Cleaned.DataSeries, Rejected.DataSeries, status)
      ensures status == Done ==> Cleaned.SumStat == SummaryOf(Cleaned.DataSeries)
    {
      Cleaned.SortMeasAsc();
      bySort := Cleaned.DataSeries;
      var n := |Cleaned.DataSeries|;
      var countlow := RejectLow(min, cause);
      var counthigh := RejectHigh(max, cause);
      low, high := countlow, counthigh;
      ghost var rejected := Rejected.DataSeries;
      counthigh := n - counthigh;
      status, chron := Cleaned.SliceAndComplete(countlow, counthigh + 1);
      TrimmedIntro(multiset(old(Cleaned.DataSeries)), old(Rejected.DataSeries), min, max, cause,
                   bySort, low, high, chron, Cleaned.DataSeries, rejected, status);
    }

    /** `SliceCleaned` with the device limits as bounds. */
    method DeviceLimitsCleaning(min: real, max: real, cause: string)
      returns (status: Status, ghost bySort: seq<DataUnit>, ghost low: int, ghost high: int, ghost chron: seq<DataUnit>)
      requires Valid()
      modifies Cleaned`DataSeries, Cleaned`SumStat, Rejected`DataSeries
      ensures Trimmed(multiset(old(Cleaned.DataSeries)), old(Rejected.DataSeries), min, max, cause,
                      bySort, low, high, chron, Cleaned.DataSeries, Rejected.DataSeries, status)
      ensures status == Done ==> Cleaned.SumStat == SummaryOf(Cleaned.DataSeries)
    {
      status, bySort, low, high, chron := SliceCleaned(min, max, cause);
    }

    /**
      `SliceCleaned` between the `perc` and `1 - perc` quantiles of the
      measures. `quantile` stands for gonum's `stat.Quantile` with the
      empirical method, applied to the ascending measures.
     */
    method PercCleaning(perc: real, quantile: (real, seq<real>) -> real, cause: string)
      returns (status: Status, ghost bySort: seq<DataUnit>, ghost low: int, ghost high: int, ghost chron: seq<DataUnit>)
      requires Valid()
      modifies Cleaned`DataSeries, Cleaned`SumStat, Rejected`DataSeries
      ensures var ms := SortedMeasures(old(Cleaned.DataSeries));
              Trimmed(multiset(old(Cleaned.DataSeries)), old(Rejected.DataSeries), quantile(perc, ms), quantile(1.0 - perc, ms), cause,
                      bySort, low, high, chron, Cleaned.DataSeries, Rejected.DataSeries, status)
      ensures status == Done ==> Cleaned.SumStat == SummaryOf(Cleaned.DataSeries)
    {
      Cleaned.SortMeasAsc();
      var dt := Cleaned.MeasToArr();
      var min := quantile(perc, dt);
      var max := quantile(1.0 - perc, dt);
      status, bySort, low, high, chron := SliceCleaned(min, max, cause);
    }

    /**
      `SliceCleaned` between `(mean - sd) * lvl` and `(mean + sd) * lvl`.
      `mean` and `stdDev` stand for gonum's unweighted `stat.Mean` and
      `stat.StdDev`, applied to the ascending measures.
     */
    method ZscoreCleaning(lvl: real, mean: seq<real> -> real, stdDev: seq<real> -> real, cause: string)
      returns (status: Status, ghost min: real, ghost max: real,
               ghost bySort: seq<DataUnit>, ghost low: int, ghost high: int, ghost chron: seq<DataUnit>)
      requires Valid()
      modifies Cleaned`DataSeries, Cleaned`SumStat, Rejected`DataSeries
      ensures var ms := SortedMeasures(old(Cleaned.DataSeries));
              min == Scaled(mean(ms) - stdDev(ms), lvl) && max == Scaled(mean(ms) + stdDev(ms), lvl)
      ensures Trimmed(multiset(old(Cleaned.DataSeries)), old(Rejected.DataSeries), min, max, cause,
                      bySort, low, high, chron, Cleaned.DataSeries, Rejected.DataSeries, status)
      ensures status == Done ==> Cleaned.SumStat == SummaryOf(Cleaned.DataSeries)
    {
      Cleaned.SortMeasAsc();
      var dt := Cleaned.MeasToArr();
      var dtmean := mean(dt);
      var dtstd := stdDev(dt);
      var zmin := Scaled(dtmean - dtstd, lvl);
      var zmax := Scaled(dtmean + dtstd, lvl);
      min, max := zmin, zmax;
      status, bySort, low, high, chron := SliceCleaned(zmin, zmax, cause);
    }

    /** Empties `Resampled` and makes `Cleaned` a copy of `Original`. */
    method ResetCleanedSeries()
      requires Valid()
      modifies Resampled`DataSeries, Cleaned
      ensures Resampled.DataSeries == []
      ensures Cleaned.DataSeries == Original.DataSeries && Cleaned.Descr == Original.Descr && Cleaned.SumStat == Original.SumStat
    {
      Resampled.Reset();
      Cleaned.Reset();
      Cleaned.DataSeries := Original.DataSeries;
      Cleaned.Descr := Original.Descr;
      Cleaned.SumStat := Original.SumStat;
    }

    /**
      The gathering scan of one bucket: from `i`, the measures of the samples
      before `edge`, stopping at the first sample at or after it or at the
      last sample.
     */
    method Gather(i: int, edge: int) returns (hi: int, vec: seq<real>)
      requires 0 <= i < |Cleaned.DataSeries|
      ensures i <= hi < |Cleaned.DataSeries|
      ensures vec == MeasOf(Cleaned.DataSeries[i..hi])
      ensures forall j :: i <= j < hi ==> Cleaned.DataSeries[j].Chron < edge
      ensures hi == |Cleaned.DataSeries| - 1 || edge <= Cleaned.DataSeries[hi].Chron
    {
      ghost var s := Cleaned.DataSeries;
      var n := |Cleaned.DataSeries|;
      hi := i;
      vec := [];
      while Cleaned.DataSeries[hi].Chron < edge && hi < n - 1
        invariant i <= hi <= n - 1
        invariant vec == MeasOf(s[i..hi])
        invariant forall j :: i <= j < hi ==> s[j].Chron < edge
        decreases n - hi
      {
        assert s[i..hi + 1] == s[i..hi] + [s[hi]];
        vec := vec + [Cleaned.DataSeries[hi].Meas];
        hi := hi + 1;
      }
    }

    /**
      The gap scan after a bucket: while the scan is before the last two
      samples and the next edge is still before the next sample, emits a
      `Nihil` point at that edge.
     */
    method FillGaps(freqq: string, i: int, mainant: int, ghost plan: seq<Emission>,
                    ghost e0: int, ghost rule: string)
      returns (next: int, ghost plan': seq<Emission>)
      requires Valid() && |freqq| >= 1 && Interval(freqq) > 0
      requires Gapping(Cleaned.DataSeries, Resampled.DataSeries, plan, e0, Interval(freqq), rule, i, mainant)
      modifies Resampled`DataSeries
      ensures Gapping(Cleaned.DataSeries, Resampled.DataSeries, plan', e0, Interval(freqq), rule, i, next)
      ensures i >= |Cleaned.DataSeries| - 2 || Cleaned.DataSeries[i + 1].Chron <= next
    {
      ghost var s := Cleaned.DataSeries;
      ghost var step := Interval(freqq);
      var n := |Cleaned.DataSeries|;
      next := mainant;
      plan' := plan;
      while i < n - 2 && next < Cleaned.DataSeries[i + 1].Chron
        invariant Gapping(s, Resampled.DataSeries, plan', e0, step, rule, i, next)
        decreases if i + 1 < n then s[i + 1].Chron - next else 0
      {
        var du := DataUnit(next, 0, Nihil, 0.0, "");
        GapStep(s, Resampled.DataSeries, plan', e0, step, rule, i, next);
        Resampled.AddDataUnit(du);
        plan' := plan' + [Gap(i)];
        next := AddDurationParam(next, freqq);
      }
    }

    /**
      One round of the outer scan of `Downsampling`: gathers a bucket from `i`,
      emits its point, emits the gap points after it and steps past the sample
      the scan stands on.
     */
    method EmitBucket(freqq: string, rule: string, i: int, mainant: int, ghost plan: seq<Emission>, ghost e0: int)
      returns (i': int, mainant': int, ghost plan': seq<Emission>)
      requires Valid() && |freqq| >= 1 && Interval(freqq) > 0
      requires 0 <= i < |Cleaned.DataSeries| - 1
      requires Scanning(Cleaned.DataSeries, Resampled.DataSeries, plan, e0, Interval(freqq), rule, i, mainant)
      modifies Resampled`DataSeries
      ensures i < i' <= |Cleaned.DataSeries|
      ensures Scanning(Cleaned.DataSeries, Resampled.DataSeries, plan', e0, Interval(freqq), rule, i', mainant')
      ensures plan' != []
    {
      ghost var s := Cleaned.DataSeries;
      ghost var step := Interval(freqq);
      var lo := i;
      var hi, vec := Gather(i, mainant);
      var du := Aggregated(vec, rule, mainant);
      Extend(s, Resampled.DataSeries, plan, e0, step, rule, du, Bucket(lo, hi));
      Resampled.AddDataUnit(du);
      plan' := plan + [Bucket(lo, hi)];
      mainant' := AddDurationParam(mainant, freqq);
      mainant', plan' := FillGaps(freqq, hi, mainant', plan', e0, rule);
      i' := hi + 1;
    }

    /**
      Rebuilds `Resampled` from the chronologically sorted `Cleaned`: one point
      per interval, starting at the first edge after the rounded first instant,
      each aggregating the samples gathered before its edge, with `Nihil`
      points for the empty intervals in between. Go reads the first sample
      unconditionally, so `Cleaned` must not be empty; the interval must be
      positive, or the gap scan would not advance.
     */
    method Downsampling(freqq: string, rule: string) returns (ghost plan: seq<Emission>)
      requires Valid() && |Cleaned.DataSeries| >= 1
      requires |freqq| >= 1 && Interval(freqq) > 0
      modifies Cleaned`DataSeries, Resampled`DataSeries
      ensures SortedBy(Cleaned.DataSeries, ChronKey) && multiset(Cleaned.DataSeries) == multiset(old(Cleaned.DataSeries))
      ensures Resampling(Cleaned.DataSeries, Resampled.DataSeries, plan,
                         FirstEdge(Cleaned.DataSeries[0].Chron, freqq), Interval(freqq), rule)
    {
      Resampled.Reset();
      Cleaned.SortChronAsc();
      ghost var s := Cleaned.DataSeries;
      var n := |Cleaned.DataSeries|;
      ghost var step := Interval(freqq);
      var datemin := Cleaned.DataSeries[0].Chron;
      var mainant := RoundedStartTime(datemin, freqq);
      mainant := AddDurationParam(mainant, freqq);
      ghost var e0 := mainant;
      plan := [];
      var i := 0;
      while i < n - 1
        invariant 0 <= i <= n
        invariant Scanning(s, Resampled.DataSeries, plan, e0, step, rule, i, mainant)
        decreases n - i
        modifies Resampled`DataSeries
      {
        i, mainant, plan := EmitBucket(freqq, rule, i, mainant, plan, e0);
      }
      ScanDone(s, Resampled.DataSeries, plan, e0, step, rule, i, mainant);
    }
  }
}
