/**
  The statistics helpers of timeseries.go over plain measures: the running
  mean, the bounds, the mean that ignores "no data" measures, and the removal
  of "no data" measures from a population. Measures are reals; float64
  rounding is not modelled.
 */
module Statistics {
  import opened Sorting

  /** The "no data" measure. */
  const Nihil: real := 0.0

  /** The sum of the measures. */
  function Sum(xs: seq<real>): (r: real) {
    if xs == [] then 0.0 else Sum(xs[..|xs| - 1]) + xs[|xs| - 1]
  }

  /** The smallest measure. */
  function MinOf(xs: seq<real>): (r: real)
    requires xs != []
    ensures r in xs
    ensures forall j :: 0 <= j < |xs| ==> r <= xs[j]
  {
    if |xs| == 1 then xs[0]
    else
      var m := MinOf(xs[..|xs| - 1]);
      assert forall j :: 0 <= j < |xs| - 1 ==> xs[..|xs| - 1][j] == xs[j];
      if xs[|xs| - 1] < m then xs[|xs| - 1] else m
  }

  /** The largest measure. */
  function MaxOf(xs: seq<real>): (r: real)
    requires xs != []
    ensures r in xs
    ensures forall j :: 0 <= j < |xs| ==> xs[j] <= r
  {
    if |xs| == 1 then xs[0]
    else
      var m := MaxOf(xs[..|xs| - 1]);
      assert forall j :: 0 <= j < |xs| - 1 ==> xs[..|xs| - 1][j] == xs[j];
      if xs[|xs| - 1] > m then xs[|xs| - 1] else m
  }

  /** The measures that are not "no data", in order. */
  function NonNihil(xs: seq<real>): (r: seq<real>)
    ensures |r| <= |xs|
    ensures forall j :: 0 <= j < |r| ==> r[j] != Nihil
  {
    if xs == [] then []
    else NonNihil(xs[..|xs| - 1]) + (if xs[|xs| - 1] != Nihil then [xs[|xs| - 1]] else [])
  }

  /** The arithmetic mean, `Nihil` for no measure. */
  function Average(xs: seq<real>): (r: real) {
    if xs == [] then Nihil else Sum(xs) / (|xs| as real)
  }

  lemma SumStep(xs: seq<real>, i: int)
    requires 0 <= i < |xs|
    ensures Sum(xs[..i + 1]) == Sum(xs[..i]) + xs[i]
  {
    assert xs[..i + 1][..i] == xs[..i];
  }

  /** Every measure at least `lo` makes the sum at least length times `lo`. */
  lemma {:induction false} SumAtLeast(xs: seq<real>, lo: real)
    requires forall j :: 0 <= j < |xs| ==> lo <= xs[j]
    ensures (|xs| as real) * lo <= Sum(xs)
    decreases |xs|
  {
    if xs != [] {
      var n := |xs|;
      SumAtLeast(xs[..n - 1], lo);
      assert (n as real) * lo == ((n - 1) as real) * lo + lo;
    }
  }

  /** Every measure at most `hi` makes the sum at most length times `hi`. */
  lemma {:induction false} SumAtMost(xs: seq<real>, hi: real)
    requires forall j :: 0 <= j < |xs| ==> xs[j] <= hi
    ensures Sum(xs) <= (|xs| as real) * hi
    decreases |xs|
  {
    if xs != [] {
      var n := |xs|;
      SumAtMost(xs[..n - 1], hi);
      assert (n as real) * hi == ((n - 1) as real) * hi + hi;
    }
  }

  /** The mean of a non-empty population lies within its bounds. */
  lemma AverageWithinBounds(xs: seq<real>)
    requires xs != []
    ensures MinOf(xs) <= Average(xs) <= MaxOf(xs)
  {
    var n := |xs| as real;
    var lo, hi, sum := MinOf(xs), MaxOf(xs), Sum(xs);
    assert Average(xs) == sum / n;
    SumAtLeast(xs, lo);
    SumAtMost(xs, hi);
    DivLower(sum, n, lo);
    DivUpper(sum, n, hi);
  }

  lemma DivLower(sum: real, n: real, lo: real)
    requires n > 0.0 && n * lo <= sum
    ensures lo <= sum / n
  {
  }

  lemma DivUpper(sum: real, n: real, hi: real)
    requires n > 0.0 && sum <= n * hi
    ensures sum / n <= hi
  {
  }

  /** "No data" measures add nothing to a sum. */
  lemma {:induction false} SumIgnoresNihil(xs: seq<real>)
    ensures Sum(NonNihil(xs)) == Sum(xs)
    decreases |xs|
  {
    if xs != [] {
      var init := xs[..|xs| - 1];
      SumIgnoresNihil(init);
      var tail := if xs[|xs| - 1] != Nihil then [xs[|xs| - 1]] else [];
      SumConcat(NonNihil(init), tail);
    }
  }

  lemma {:induction false} SumConcat(a: seq<real>, b: seq<real>)
    ensures Sum(a + b) == Sum(a) + Sum(b)
    decreases |b|
  {
    if b != [] {
      assert (a + b)[..|a + b| - 1] == a + b[..|b| - 1];
      assert (a + b)[|a + b| - 1] == b[|b| - 1];
      assert Sum(a + b) == Sum(a + b[..|b| - 1]) + b[|b| - 1];
      SumConcat(a, b[..|b| - 1]);
    } else {
      assert a + b == a;
    }
  }

  /** The running mean of the measures; `Nihil` when there are none. */
  method Mean(xs: seq<real>) returns (m: real)
    ensures m == Average(xs)
  {
    if |xs| == 0 {
      return Nihil;
    }
    m := 0.0;
    for i := 0 to |xs|
      invariant m * (i as real) == Sum(xs[..i])
    {
      var k := (i + 1) as real;
      var step := (xs[i] - m) / k;
      assert step * k == xs[i] - m;
      SumStep(xs, i);
      m := m + step;
    }
    assert xs[..|xs|] == xs;
    DivExact(m, |xs| as real, Sum(xs));
  }

  /** Dividing a product by a non-zero factor gives back the other factor. */
  lemma DivExact(m: real, n: real, s: real)
    requires n != 0.0 && m * n == s
    ensures m == s / n
  {
  }

  /** The smallest and the largest measure; `(0, 0)` for no measure. */
  method Bounds(xs: seq<real>) returns (min: real, max: real)
    ensures xs == [] ==> min == 0.0 && max == 0.0
    ensures xs != [] ==> min in xs && max in xs
    ensures forall j :: 0 <= j < |xs| ==> min <= xs[j] <= max
    ensures xs != [] ==> min == MinOf(xs) && max == MaxOf(xs)
  {
    if |xs| == 0 {
      return 0.0, 0.0;
    }
    min, max := xs[0], xs[0];
    for i := 0 to |xs|
      invariant min in xs && max in xs
      invariant forall j :: 0 <= j < i ==> min <= xs[j] <= max
    {
      if xs[i] < min {
        min := xs[i];
      }
      if xs[i] > max {
        max := xs[i];
      }
    }
  }

  /** Why `Tmean` gives up. */
  datatype TmeanError = NoError | PopulationIsEmpty

  /**
    The mean of the measures that are not "no data": all measures are summed,
    but only the others are counted. With no such measure the result is
    `(0, 0)` and an error.
   */
  method Tmean(obs: seq<real>) returns (mean: real, count: real, err: TmeanError)
    ensures err == PopulationIsEmpty <==> NonNihil(obs) == []
    ensures err == PopulationIsEmpty ==> mean == 0.0 && count == 0.0
    ensures err == NoError ==> count == |NonNihil(obs)| as real && mean == Average(NonNihil(obs))
  {
    var sum := 0.0;
    count := 0.0;
    for i := 0 to |obs|
      invariant sum == Sum(obs[..i])
      invariant count == |NonNihil(obs[..i])| as real
    {
      SumStep(obs, i);
      assert obs[..i + 1][..i] == obs[..i];
      sum := sum + obs[i];
      if obs[i] != Nihil {
        count := count + 1.0;
      }
    }
    assert obs[..|obs|] == obs;
    if count == 0.0 {
      return 0.0, 0.0, PopulationIsEmpty;
    }
    SumIgnoresNihil(obs);
    return sum / count, count, NoError;
  }

  /** The population holds a measure below zero. */
  ghost predicate HasNegative(xs: seq<real>) {
    exists j :: 0 <= j < |xs| && xs[j] < 0.0
  }

  /** The population holds a measure above zero. */
  ghost predicate HasPositive(xs: seq<real>) {
    exists j :: 0 <= j < |xs| && xs[j] > 0.0
  }

  /**
    How many "no data" measures `CleanForNA` keeps: none when a measure is
    negative, otherwise one if there is any.
   */
  ghost function ZerosKept(xs: seq<real>): (r: nat) {
    if HasNegative(xs) then 0
    else if Nihil in multiset(xs) then 1
    else 0
  }

  lemma MultisetOfSplit(s: seq<real>, a: int, b: int)
    requires 0 <= a <= b <= |s|
    ensures multiset(s) == multiset(s[..a]) + multiset(s[a..b]) + multiset(s[b..])
  {
    assert s == s[..a] + s[a..b] + s[b..];
  }

  lemma CountOfZero(s: seq<real>, v: real)
    requires forall j :: 0 <= j < |s| ==> s[j] == v
    ensures multiset(s)[v] == |s|
    ensures forall w :: w != v ==> multiset(s)[w] == 0
  {
    if s != [] {
      assert s == s[..|s| - 1] + [s[|s| - 1]];
      CountOfZero(s[..|s| - 1], v);
    }
  }

  lemma NoneOf(s: seq<real>, v: real)
    requires forall j :: 0 <= j < |s| ==> s[j] != v
    ensures multiset(s)[v] == 0
  {
    if s != [] {
      assert s == s[..|s| - 1] + [s[|s| - 1]];
      NoneOf(s[..|s| - 1], v);
    }
  }

  /**
    The outcome of `CleanForNA` on the ascending population `sorted`, with
    `neg` negative measures, the positive ones from index `pos` on and
    `startcut` where the kept head ends: what it keeps of each measure.
   */
  lemma {:induction false} CleanedCounts(sorted: seq<real>, neg: nat, pos: nat, startcut: nat, cleaned: seq<real>)
    requires neg <= pos < |sorted|
    requires forall j :: 0 <= j < |sorted| ==> (sorted[j] < 0.0 <==> j < neg)
    requires forall j :: 0 <= j < |sorted| ==> (sorted[j] > 0.0 <==> j >= pos)
    requires startcut == (if neg > 0 && pos > neg then neg else if neg == 0 && pos >= 2 then 1 else 0)
    requires cleaned == (if startcut == 0 then sorted else sorted[..startcut] + sorted[pos..])
    ensures forall v :: v != Nihil ==> multiset(cleaned)[v] == multiset(sorted)[v]
    ensures multiset(cleaned)[Nihil] == ZerosKept(sorted)
  {
    MultisetOfSplit(sorted, neg, pos);
    var zeros := sorted[neg..pos];
    assert forall j :: 0 <= j < |zeros| ==> zeros[j] == zeros[j] && sorted[neg + j] == zeros[j];
    CountOfZero(zeros, Nihil);
    NoneOf(sorted[..neg], Nihil);
    assert forall j :: 0 <= j < |sorted[pos..]| ==> sorted[pos..][j] == sorted[pos + j];
    NoneOf(sorted[pos..], Nihil);
    if neg > 0 {
      assert sorted[0] < 0.0;
      assert HasNegative(sorted);
    } else {
      assert forall j :: 0 <= j < |sorted| ==> !(sorted[j] < 0.0);
      if pos >= 1 {
        assert sorted[0] == zeros[0];
      }
    }
    if startcut != 0 {
      assert cleaned == sorted[..startcut] + sorted[pos..];
      if neg == 0 {
        assert sorted[..startcut] == [zeros[0]];
        CountOfZero(sorted[..startcut], Nihil);
      }
    }
  }

  /** Go's `sort.Float64s`: sorts the array ascending in place. */
  method SortFloat64s(obs: array<real>)
    modifies obs
    ensures SortedBy(obs[..], Id) && multiset(obs[..]) == multiset(old(obs[..]))
  {
    var ascending := SortBy(obs[..], Id);
    forall k | 0 <= k < obs.Length {
      obs[k] := ascending[k];
    }
    assert obs[..] == ascending;
  }

  /**
    What `CleanForNA` promises about the ascending population `sorted`, the
    returned slice `cleaned` and the array contents `after` it leaves behind.
   */
  ghost predicate CleanedForNA(sorted: seq<real>, cleaned: seq<real>, after: seq<real>) {
    && |cleaned| <= |sorted|
    && after == cleaned + sorted[|cleaned|..]
    && (!HasPositive(sorted) ==> cleaned == [])
    && (HasPositive(sorted) ==>
          && SortedBy(cleaned, Id)
          && (forall v :: v != Nihil ==> multiset(cleaned)[v] == multiset(sorted)[v])
          && multiset(cleaned)[Nihil] == ZerosKept(sorted))
  }

  /** Both ways out of the scan once a positive measure is met satisfy `CleanedForNA`. */
  lemma PositiveExit(sorted: seq<real>, neg: nat, pos: nat, startcut: nat, cleaned: seq<real>, after: seq<real>)
    requires SortedBy(sorted, Id) && neg <= pos < |sorted|
    requires forall j :: 0 <= j < |sorted| ==> (sorted[j] < 0.0 <==> j < neg)
    requires forall j :: 0 <= j < |sorted| ==> (sorted[j] > 0.0 <==> j >= pos)
    requires startcut == (if neg > 0 && pos > neg then neg else if neg == 0 && pos >= 2 then 1 else 0)
    requires cleaned == (if startcut == 0 then sorted else sorted[..startcut] + sorted[pos..])
    requires after == cleaned + sorted[|cleaned|..]
    ensures CleanedForNA(sorted, cleaned, after)
  {
    assert sorted[pos] > 0.0;
    CleanedCounts(sorted, neg, pos, startcut, cleaned);
    KeptSorted(sorted, startcut, pos);
    if startcut == 0 {
      assert sorted[..0] + sorted[0..] == sorted;
    }
  }

  /**
    Sorts `obs` ascending in place and returns it without its "no data"
    measures, after this scheme: with no positive measure the result is empty;
    otherwise every non-zero measure is kept, and a zero survives only when no
    measure is negative (then exactly one). The result is assembled by Go's
    `append` inside the backing array of `obs`, so `obs` is left holding the
    result followed by the rest of the sorted population.
   */
  method CleanForNA(obs: array<real>) returns (cleaned: seq<real>, ghost sorted: seq<real>)
    modifies obs
    ensures SortedBy(sorted, Id) && multiset(sorted) == multiset(old(obs[..]))
    ensures CleanedForNA(sorted, cleaned, obs[..])
  {
    SortFloat64s(obs);
    sorted := obs[..];
    ghost var neg := CountBelow(sorted, 0.0);
    ghost var pos := |sorted| - CountAbove(sorted, 0.0);
    BelowIsPrefix(sorted, 0.0);
    AboveIsSuffix(sorted, 0.0);
    cleaned := [];
    var startcut := 0;
    var stopcut := 0;
    var i := 0;
    while i < obs.Length
      invariant 0 <= i <= obs.Length && i <= pos
      invariant obs[..] == sorted && cleaned == []
      invariant startcut == (if neg > 0 && i > neg then neg else if neg == 0 && i >= 2 then 1 else 0)
    {
      if obs[i] > 0.0 && startcut == 0 {
        cleaned := obs[..];
        assert i == pos;
        assert sorted == cleaned + sorted[|cleaned|..];
        PositiveExit(sorted, neg, pos, startcut, cleaned, obs[..]);
        break;
      }
      if obs[i] > 0.0 && startcut > 0 {
        stopcut := i;
        assert stopcut == pos;
        cleaned := AppendInPlace(obs, startcut, stopcut);
        PositiveExit(sorted, neg, pos, startcut, cleaned, obs[..]);
        break;
      }
      if obs[i] == Nihil && startcut == 0 {
        startcut := i;
      }
      i := i + 1;
    }
    if i == obs.Length {
      NoPositiveExit(sorted, pos);
    }
  }

  /** A scan that meets no positive measure returns nothing and leaves the sorted population. */
  lemma NoPositiveExit(sorted: seq<real>, pos: int)
    requires pos == |sorted|
    requires forall j :: 0 <= j < |sorted| ==> (sorted[j] > 0.0 <==> j >= pos)
    ensures CleanedForNA(sorted, [], sorted)
  {
    assert sorted == [] + sorted[0..];
  }

  /**
    Go's `append(obs[:cut], obs[from:]...)`: the slice `obs[:cut]` has the
    capacity of `obs`, so the tail is copied down inside `obs` itself and the
    result is a prefix of it.
   */
  method AppendInPlace(obs: array<real>, cut: int, from: int) returns (r: seq<real>)
    requires 0 <= cut <= from <= obs.Length
    modifies obs
    ensures r == old(obs[..])[..cut] + old(obs[..])[from..]
    ensures obs[..] == r + old(obs[..])[|r|..]
  {
    ghost var before := obs[..];
    forall k | 0 <= k < obs.Length - from {
      obs[cut + k] := obs[from + k];
    }
    r := obs[..cut + (obs.Length - from)];
    Compacted(before, obs[..], cut, from, r);
  }

  /** The layout that copying `before[from..]` down to index `cut` leaves behind. */
  lemma Compacted(before: seq<real>, after: seq<real>, cut: nat, from: nat, r: seq<real>)
    requires cut <= from <= |before| == |after|
    requires forall k :: 0 <= k < cut ==> after[k] == before[k]
    requires forall k :: cut <= k < cut + (|before| - from) ==> after[k] == before[from + (k - cut)]
    requires forall k :: cut + (|before| - from) <= k < |before| ==> after[k] == before[k]
    requires r == after[..cut + (|before| - from)]
    ensures r == before[..cut] + before[from..]
    ensures after == r + before[|r|..]
  {
  }

  lemma KeptSorted(sorted: seq<real>, startcut: nat, pos: nat)
    requires SortedBy(sorted, Id) && startcut <= pos <= |sorted|
    ensures SortedBy(sorted[..startcut] + sorted[pos..], Id)
  {
    var c := sorted[..startcut] + sorted[pos..];
    forall a, b | 0 <= a < b < |c| ensures Id(c[a]) <= Id(c[b]) {
      var ia := if a < startcut then a else a - startcut + pos;
      var ib := if b < startcut then b else b - startcut + pos;
      assert c[a] == sorted[ia] && c[b] == sorted[ib];
    }
  }
}
