/**
  The series of timeseries.go: a `TimeSeries` is a sequence of `DataUnit`s
  (instant, time since the previous unit, measure, measure change since the
  previous unit, provenance tag) with a description and a cached summary.
  Its methods sort, complete (fill the deltas) and trim the sequence in place.
 */
module Series {
  import opened Sorting

  /** One sample. `Chron` is in nanoseconds since Go's zero instant, `Dchron` a duration in nanoseconds. */
  datatype DataUnit = DataUnit(Chron: int, Dchron: int, Meas: real, Dmeas: real, Origin: string)

  /** The integer part of the cached summary: length, first and last instant. */
  datatype SummaryStat = SummaryStat(Dslen: int, Chmin: int, Chmax: int)

  /** The run-time faults of Go that the trimming code can run into. */
  datatype Fault = SliceBoundsOutOfRange | IndexOutOfRange

  /** How a trimming operation ended: normally, or at the point where Go would panic. */
  datatype Status = Done | Panic(fault: Fault)

  function ChronKey(du: DataUnit): (r: real) { du.Chron as real }

  function ChronDescKey(du: DataUnit): (r: real) { -(du.Chron as real) }

  function MeasKey(du: DataUnit): (r: real) { du.Meas }

  /** The measures of a series, in order. */
  function MeasOf(s: seq<DataUnit>): (r: seq<real>)
    ensures |r| == |s| && forall i :: 0 <= i < |s| ==> r[i] == s[i].Meas
  {
    Keys(s, MeasKey)
  }

  /** The instants of a series, in order. */
  function ChronOf(s: seq<DataUnit>): (r: seq<int>) {
    seq(|s|, i requires 0 <= i < |s| => s[i].Chron)
  }

  /** The measures of `s` in ascending order: what any measure sort leaves in the measure column. */
  function SortedMeasures(s: seq<DataUnit>): (r: seq<real>) { SortBy(MeasOf(s), Id) }

  /** The summary `ComputeSummaryStat` caches for a non-empty series. */
  function SummaryOf(s: seq<DataUnit>): (r: SummaryStat)
    requires |s| >= 1
  {
    SummaryStat(|s|, s[0].Chron, s[|s| - 1].Chron)
  }

  /**
    `r` is what `Complete` makes of the chronologically sorted `s`: same
    instants, measures and tags; the first unit's deltas are zero; every unit
    strictly between the first and the last gets its deltas from its
    predecessor; the last unit keeps whatever deltas it had.
   */
  ghost predicate CompletionOf(r: seq<DataUnit>, s: seq<DataUnit>) {
    && |r| == |s|
    && (forall i :: 0 <= i < |s| ==> r[i].Chron == s[i].Chron && r[i].Meas == s[i].Meas && r[i].Origin == s[i].Origin)
    && (|s| >= 1 ==> r[0].Dchron == 0 && r[0].Dmeas == 0.0)
    && (forall i :: 1 <= i < |s| - 1 ==>
          r[i].Dchron == s[i].Chron - s[i - 1].Chron && r[i].Dmeas == s[i].Meas - s[i - 1].Meas)
    && (|s| >= 2 ==> r[|s| - 1] == s[|s| - 1])
  }

  /**
    The counting loop of `CleanedForOutliers`: over all measures but the last,
    how many lie strictly below `lo` and how many strictly above `hi`.
   */
  method CountOutliers(dt: seq<real>, lo: real, hi: real) returns (countlow: nat, counthigh: nat)
    ensures countlow == CountBelow(AllButLast(dt), lo)
    ensures counthigh == CountAbove(AllButLast(dt), hi)
  {
    countlow, counthigh := 0, 0;
    var n := |dt|;
    var i := 0;
    while i < n - 1
      invariant 0 <= i <= (if n >= 1 then n - 1 else 0)
      invariant countlow == CountBelow(dt[..i], lo)
      invariant counthigh == CountAbove(dt[..i], hi)
    {
      CountsStep(dt, i, lo, hi);
      if dt[i] < lo {
        countlow := countlow + 1;
      }
      if dt[i] > hi {
        counthigh := counthigh + 1;
      }
      i := i + 1;
    }
    assert dt[..i] == AllButLast(dt);
  }

  /**
    The effect of the Go statements `ds = ds[low:high]; ts.Complete()` on the
    series `s`: out-of-range bounds stop at the slice expression with `s` as it
    was; an empty slice stops inside `Complete`, which indexes element 0; otherwise
    the kept units, chronologically sorted as `chron`, are completed.
   */
  ghost predicate Resliced(s: seq<DataUnit>, low: int, high: int, chron: seq<DataUnit>, after: seq<DataUnit>, status: Status) {
    && (status == Done <==> 0 <= low < high <= |s|)
    && (status == Panic(SliceBoundsOutOfRange) <==> !(0 <= low <= high <= |s|))
    && (status == Panic(SliceBoundsOutOfRange) ==> after == s)
    && (status == Panic(IndexOutOfRange) ==> after == [])
    && (status == Done ==>
          && 0 <= low < high <= |s|
          && SortedBy(chron, ChronKey)
          && multiset(chron) == multiset(s[low..high])
          && CompletionOf(after, chron))
  }

  /**
    What `CleanedForOutliers` does to the series once it is sorted by measure
    as `bySort`, whose ascending measures are `ms`: the low and high counts
    are the measures strictly below the `perc` quantile and strictly above the
    `1 - perc` quantile among all but the last, and the series is resliced to
    `[low, n - high + 1)` and completed.
   */
  ghost predicate QuantileTrimmed(ms: seq<real>, perc: real, quantile: (real, seq<real>) -> real,
                                  bySort: seq<DataUnit>, chron: seq<DataUnit>, after: seq<DataUnit>, status: Status) {
    var low := CountBelow(AllButLast(ms), quantile(perc, ms));
    var high := CountAbove(AllButLast(ms), quantile(1.0 - perc, ms));
    Resliced(bySort, low, |ms| - high + 1, chron, after, status)
  }

  /** All measures but the last: the indices `0 .. len-2` that `CleanedForOutliers` scans. */
  function AllButLast(xs: seq<real>): (r: seq<real>) {
    if |xs| == 0 then [] else xs[..|xs| - 1]
  }

  /** `ds` is `s` with the deltas of units `1 .. i-1` filled in and those of unit 0 zeroed. */
  ghost predicate FilledUpTo(ds: seq<DataUnit>, s: seq<DataUnit>, i: int) {
    && |ds| == |s| >= 1 && 1 <= i
    && (forall j :: 0 <= j < |s| ==> ds[j].Chron == s[j].Chron && ds[j].Meas == s[j].Meas && ds[j].Origin == s[j].Origin)
    && ds[0].Dchron == 0 && ds[0].Dmeas == 0.0
    && (forall j :: 1 <= j < i && j < |s| ==>
          ds[j].Dchron == s[j].Chron - s[j - 1].Chron && ds[j].Dmeas == s[j].Meas - s[j - 1].Meas)
    && (forall j :: i <= j < |s| ==> ds[j] == s[j])
  }

  lemma FillStep(ds: seq<DataUnit>, s: seq<DataUnit>, i: int)
    requires FilledUpTo(ds, s, i) && i < |s|
    ensures FilledUpTo(ds[i := ds[i].(Dchron := ds[i].Chron - ds[i - 1].Chron, Dmeas := ds[i].Meas - ds[i - 1].Meas)], s, i + 1)
  {
  }

  lemma FilledAll(ds: seq<DataUnit>, s: seq<DataUnit>, i: int)
    requires FilledUpTo(ds, s, i) && i == (if |s| >= 2 then |s| - 1 else 1)
    ensures CompletionOf(ds, s)
  {
  }

  /** Completing a series changes no instant, so it keeps the chronological order. */
  lemma CompletionKeepsOrder(r: seq<DataUnit>, s: seq<DataUnit>)
    requires CompletionOf(r, s) && SortedBy(s, ChronKey)
    ensures SortedBy(r, ChronKey)
  {
    forall i, j | 0 <= i < j < |r| ensures ChronKey(r[i]) <= ChronKey(r[j]) {
      assert ChronKey(s[i]) <= ChronKey(s[j]);
    }
  }

  class TimeSeries {
    var DataSeries: seq<DataUnit>
    var Descr: string
    var SumStat: SummaryStat

    /** The zero value of the Go struct. */
    constructor ()
      ensures DataSeries == [] && Descr == "" && SumStat == SummaryStat(0, 0, 0)
    {
      DataSeries := [];
      Descr := "";
      SumStat := SummaryStat(0, 0, 0);
    }

    method AddDataUnit(du: DataUnit)
      modifies this`DataSeries
      ensures DataSeries == old(DataSeries) + [du]
    {
      DataSeries := DataSeries + [du];
    }

    method Reset()
      modifies this`DataSeries
      ensures DataSeries == []
    {
      DataSeries := DataSeries[0..0];
    }

    method SortChronAsc()
      modifies this`DataSeries
      ensures SortedBy(DataSeries, ChronKey)
      ensures multiset(DataSeries) == multiset(old(DataSeries))
    {
      DataSeries := SortBy(DataSeries, ChronKey);
    }

    method SortChronDesc()
      modifies this`DataSeries
      ensures forall i, j :: 0 <= i < j < |DataSeries| ==> DataSeries[i].Chron >= DataSeries[j].Chron
      ensures multiset(DataSeries) == multiset(old(DataSeries))
    {
      DataSeries := SortBy(DataSeries, ChronDescKey);
      assert forall i, j :: 0 <= i < j < |DataSeries| ==> ChronDescKey(DataSeries[i]) <= ChronDescKey(DataSeries[j]);
    }

    method SortMeasAsc()
      modifies this`DataSeries
      ensures SortedBy(DataSeries, MeasKey)
      ensures multiset(DataSeries) == multiset(old(DataSeries))
      ensures MeasOf(DataSeries) == SortedMeasures(old(DataSeries))
    {
      DataSeries := SortBy(DataSeries, MeasKey);
      SortedKeysDetermined(old(DataSeries), DataSeries, MeasKey);
    }

    /** The integer part of the summary: length, first and last instant. */
    method ComputeSummaryStat()
      requires |DataSeries| >= 1
      modifies this`SumStat
      ensures SumStat == SummaryOf(DataSeries)
    {
      var dslen := |DataSeries|;
      SumStat := SumStat.(Dslen := dslen);
      SumStat := SumStat.(Chmin := DataSeries[0].Chron);
      SumStat := SumStat.(Chmax := DataSeries[dslen - 1].Chron);
    }

    /**
      Sorts chronologically, then fills the deltas of every unit but the last
      and recomputes the summary. Go indexes element 0 unconditionally, so the
      series must not be empty.
     */
    method Complete() returns (ghost sorted: seq<DataUnit>)
      requires |DataSeries| >= 1
      modifies this`DataSeries, this`SumStat
      ensures SortedBy(sorted, ChronKey) && multiset(sorted) == multiset(old(DataSeries))
      ensures CompletionOf(DataSeries, sorted)
      ensures SortedBy(DataSeries, ChronKey)
      ensures SumStat == SummaryOf(DataSeries)
    {
      SortChronAsc();
      sorted := DataSeries;
      var ds := DataSeries;
      var n := |ds|;
      ds := ds[0 := ds[0].(Dchron := 0, Dmeas := 0.0)];
      var i := 1;
      while i < n - 1
        invariant 1 <= i <= (if n >= 2 then n - 1 else 1)
        invariant FilledUpTo(ds, sorted, i)
      {
        ghost var prev := ds;
        ds := ds[i := ds[i].(Dchron := ds[i].Chron - ds[i - 1].Chron, Dmeas := ds[i].Meas - ds[i - 1].Meas)];
        FillStep(prev, sorted, i);
        i := i + 1;
      }
      FilledAll(ds, sorted, i);
      CompletionKeepsOrder(ds, sorted);
      DataSeries := ds;
      ComputeSummaryStat();
    }

    /**
      The shared tail of the trimming operations: `ds = ds[low:high]` followed
      by `Complete()`, stopping where Go would panic. The summary is left alone
      when it stops.
     */
    method SliceAndComplete(low: int, high: int) returns (status: Status, ghost chron: seq<DataUnit>)
      modifies this`DataSeries, this`SumStat
      ensures Resliced(old(DataSeries), low, high, chron, DataSeries, status)
      ensures status == Done ==> SumStat == SummaryOf(DataSeries)
      ensures status != Done ==> SumStat == old(SumStat)
    {
      if !(0 <= low <= high <= |DataSeries|) {
        status := Panic(SliceBoundsOutOfRange);
        chron := [];
        return;
      }
      DataSeries := DataSeries[low..high];
      if |DataSeries| == 0 {
        status := Panic(IndexOutOfRange);
        chron := [];
        return;
      }
      chron := Complete();
      status := Done;
    }

    /**
      Removes the units whose measures fall outside the `perc` and `1 - perc`
      quantiles. `cleanedts := ts` makes the receiver itself the series that is
      sorted by measure and re-sliced. Both counts are taken over indices
      `0 .. len-2` only, and the kept range is `[countlow : len - counthigh + 1]`.
      `quantile` stands for gonum's `stat.Quantile` with the empirical method.
     */
    method CleanedForOutliers(perc: real, quantile: (real, seq<real>) -> real)
      returns (status: Status, ghost bySort: seq<DataUnit>, ghost chron: seq<DataUnit>)
      modifies this`DataSeries, this`SumStat
      ensures SortedBy(bySort, MeasKey) && multiset(bySort) == multiset(old(DataSeries))
      ensures MeasOf(bySort) == SortedMeasures(old(DataSeries))
      ensures QuantileTrimmed(SortedMeasures(old(DataSeries)), perc, quantile, bySort, chron, DataSeries, status)
      ensures status == Done ==> SumStat == SummaryOf(DataSeries)
    {
      ghost var ms := SortedMeasures(DataSeries);
      SortMeasAsc();
      bySort := DataSeries;
      var dt := MeasToArr();
      assert dt == ms;
      var quant5 := quantile(perc, dt);
      var quant95 := quantile(1.0 - perc, dt);
      var countlow: int, counthigh: int := CountOutliers(dt, quant5, quant95);
      var n := |dt|;
      counthigh := n - counthigh;
      status, chron := SliceAndComplete(countlow, counthigh + 1);
    }

    method MeasToArr() returns (measarr: seq<real>)
      ensures measarr == MeasOf(DataSeries)
    {
      measarr := [];
      for index := 0 to |DataSeries|
        invariant measarr == MeasOf(DataSeries)[..index]
      {
        assert MeasOf(DataSeries)[..index + 1] == MeasOf(DataSeries)[..index] + [DataSeries[index].Meas];
        measarr := measarr + [DataSeries[index].Meas];
      }
    }

    method ChronToArr() returns (chronarr: seq<int>)
      ensures chronarr == ChronOf(DataSeries)
    {
      chronarr := [];
      for index := 0 to |DataSeries|
        invariant chronarr == ChronOf(DataSeries)[..index]
      {
        assert ChronOf(DataSeries)[..index + 1] == ChronOf(DataSeries)[..index] + [DataSeries[index].Chron];
        chronarr := chronarr + [DataSeries[index].Chron];
      }
    }
  }

  /** Overwriting element `i` by the last one and truncating removes exactly one copy of the old element `i`. */
  lemma SwapRemoveMultiset(s: seq<DataUnit>, i: int)
    requires 0 <= i < |s|
    ensures multiset(s[i := s[|s| - 1]][..|s| - 1]) == multiset(s) - multiset{s[i]}
  {
    var n := |s|;
    var t := s[i := s[n - 1]][..n - 1];
    if i == n - 1 {
      assert s == t + [s[n - 1]];
    } else {
      assert t == s[..i] + [s[n - 1]] + s[i + 1..n - 1];
      assert s == s[..i] + [s[i]] + s[i + 1..n - 1] + [s[n - 1]];
      assert multiset(s) == multiset(s[..i]) + multiset{s[i]} + multiset(s[i + 1..n - 1]) + multiset{s[n - 1]};
      assert multiset(t) == multiset(s[..i]) + multiset{s[n - 1]} + multiset(s[i + 1..n - 1]);
    }
  }

  /** Removes unit `i` by moving the last unit into its place, then re-sorts chronologically. */
  method DelFast(ts: TimeSeries, i: int)
    requires 0 <= i < |ts.DataSeries|
    modifies ts`DataSeries
    ensures |ts.DataSeries| == |old(ts.DataSeries)| - 1
    ensures multiset(ts.DataSeries) == multiset(old(ts.DataSeries)) - multiset{old(ts.DataSeries)[i]}
    ensures SortedBy(ts.DataSeries, ChronKey)
  {
    SwapRemoveMultiset(ts.DataSeries, i);
    ts.DataSeries := ts.DataSeries[i := ts.DataSeries[|ts.DataSeries| - 1]];
    ts.DataSeries := ts.DataSeries[..|ts.DataSeries| - 1];
    ts.SortChronAsc();
  }

  /** A new series holding the units of `tsa` followed by those of `tsb`; neither input changes. */
  method Merge(tsa: TimeSeries, tsb: TimeSeries) returns (tsr: TimeSeries)
    ensures fresh(tsr)
    ensures tsr.DataSeries == tsa.DataSeries + tsb.DataSeries
    ensures tsr.Descr == "" && tsr.SumStat == SummaryStat(0, 0, 0)
  {
    tsr := new TimeSeries();
    for k := 0 to |tsa.DataSeries|
      invariant tsr.DataSeries == tsa.DataSeries[..k]
      invariant tsr.Descr == "" && tsr.SumStat == SummaryStat(0, 0, 0)
    {
      tsr.AddDataUnit(tsa.DataSeries[k]);
    }
    for k := 0 to |tsb.DataSeries|
      invariant tsr.DataSeries == tsa.DataSeries + tsb.DataSeries[..k]
      invariant tsr.Descr == "" && tsr.SumStat == SummaryStat(0, 0, 0)
    {
      tsr.AddDataUnit(tsb.DataSeries[k]);
    }
  }
}
