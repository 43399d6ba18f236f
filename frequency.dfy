/**
  The frequency-specification helpers of timeseries.go. A specification is a
  string "<integer><unit>" whose last character is the unit: 's', 'm' or 'h'
  for seconds, minutes or hours; 'd' is recognised only when rounding a start
  time down; any other unit leaves times unchanged.

  Instants are integers: nanoseconds counted from Go's zero instant (January 1
  of year 1, UTC), so `Before` is `<`, `Add` is `+` and `Sub` is `-`.
  A day is a fixed 86400 seconds.
 */
module Frequency {
  import opened Strconv

  const Second: int := 1_000_000_000
  const Minute: int := 60 * Second
  const Hour: int := 60 * Minute
  const Day: int := 24 * Hour

  /** Splits a specification into its integer prefix (0 when it is not an integer) and its one-character unit. */
  function InterpretDurationParam(freqq: string): (r: (int, string))
    requires |freqq| >= 1
    ensures |r.1| == 1 && r.1[0] == freqq[|freqq| - 1]
    ensures MinInt64 <= r.0 <= MaxInt64
  {
    (Atoi(freqq[..|freqq| - 1]), freqq[|freqq| - 1..])
  }

  /** Length of one unit for the units that advance time. */
  function UnitLength(unit: string): (r: int) {
    if unit == "s" then Second
    else if unit == "m" then Minute
    else if unit == "h" then Hour
    else 0
  }

  /** The interval a specification stands for: magnitude times unit length, 0 for a unit that does not advance time. */
  function Interval(freqq: string): (r: int)
    requires |freqq| >= 1
  {
    var (freq, unit) := InterpretDurationParam(freqq);
    UnitLength(unit) * freq
  }

  /** Adds one interval to `start`; a 'd' or unknown unit adds nothing. */
  function AddDurationParam(start: int, freqq: string): (r: int)
    requires |freqq| >= 1
    ensures r == start + Interval(freqq)
    ensures freqq[|freqq| - 1] !in "smh" ==> r == start
  {
    var (freq, timeunit) := InterpretDurationParam(freqq);
    if timeunit == "s" then start + Second * freq
    else if timeunit == "m" then start + Minute * freq
    else if timeunit == "h" then start + Hour * freq
    else start
  }

  lemma MultipleHasNoRemainder(q: int, d: int)
    requires d > 0
    ensures (d * q) % d == 0
  {
    var k, m := (d * q) / d, (d * q) % d;
    assert d * q == d * k + m && 0 <= m < d;
    assert d * (q - k) == m;
    if q - k >= 1 {
      assert false;
    } else if q - k <= -1 {
      assert false;
    }
  }

  /** `time.Time.Truncate`: rounds down to a multiple of `d` since the zero instant; unchanged when `d <= 0`. */
  function Truncate(t: int, d: int): (r: int)
    ensures d > 0 ==> r <= t < r + d && r % d == 0
    ensures d <= 0 ==> r == t
  {
    if d <= 0 then t
    else
      assert t - t % d == d * (t / d);
      MultipleHasNoRemainder(t / d, d);
      t - t % d
  }

  /**
    The start of the first bucket: `t` rounded down to a multiple of the
    interval for 's', 'm' and 'h'; `t` minus magnitude days for 'd'; `t` itself
    for any other unit.
   */
  function RoundedStartTime(timetoround: int, afreqq: string): (r: int)
    requires |afreqq| >= 1
    ensures Interval(afreqq) > 0 ==> r <= timetoround < r + Interval(afreqq) && r % Interval(afreqq) == 0
    ensures afreqq[|afreqq| - 1] in "smh" && Interval(afreqq) <= 0 ==> r == timetoround
    ensures afreqq[|afreqq| - 1] == 'd' ==> r == timetoround - InterpretDurationParam(afreqq).0 * Day
    ensures afreqq[|afreqq| - 1] !in "smhd" ==> r == timetoround
  {
    var (ff, per) := InterpretDurationParam(afreqq);
    if per == "m" then
      assert Minute * ff == Interval(afreqq);
      Truncate(timetoround, Minute * ff)
    else if per == "s" then
      assert Second * ff == Interval(afreqq);
      Truncate(timetoround, Second * ff)
    else if per == "h" then
      assert Hour * ff == Interval(afreqq);
      Truncate(timetoround, Hour * ff)
    else if per == "d" then timetoround - ff * Day
    else timetoround
  }

  /** The upper edge of the first bucket of a resampling that starts at `t`. */
  function FirstEdge(t: int, freqq: string): (r: int)
    requires |freqq| >= 1
  {
    AddDurationParam(RoundedStartTime(t, freqq), freqq)
  }

  /** Adding `d` to a multiple of `d` gives a multiple of `d`. */
  lemma NextMultiple(r: int, d: int)
    requires d > 0 && r % d == 0
    ensures (r + d) % d == 0
  {
    var q := r / d;
    assert r == d * q;
    assert r + d == d * (q + 1);
    MultipleHasNoRemainder(q + 1, d);
  }

  /** With a positive interval, the first bucket `[edge - interval, edge)` holds `t`. */
  lemma FirstEdgeHoldsStart(t: int, freqq: string)
    requires |freqq| >= 1 && Interval(freqq) > 0
    ensures FirstEdge(t, freqq) - Interval(freqq) <= t < FirstEdge(t, freqq)
    ensures FirstEdge(t, freqq) % Interval(freqq) == 0
  {
    var d, r := Interval(freqq), RoundedStartTime(t, freqq);
    assert FirstEdge(t, freqq) == r + d;
    NextMultiple(r, d);
  }

  /** A specification written as digits and a unit reads back as that magnitude and unit. */
  lemma InterpretRoundTrip(n: nat, u: char)
    requires n <= MaxInt64
    ensures InterpretDurationParam(Itoa(n) + [u]) == (n, [u])
  {
    var f := Itoa(n) + [u];
    assert f[..|f| - 1] == Itoa(n);
    AtoiItoa(n);
  }

  /** A positive interval needs a time-advancing unit and a positive magnitude. */
  lemma PositiveInterval(freqq: string)
    requires |freqq| >= 1
    ensures Interval(freqq) > 0 <==> freqq[|freqq| - 1] in "smh" && InterpretDurationParam(freqq).0 > 0
  {
    var (freq, unit) := InterpretDurationParam(freqq);
    if freqq[|freqq| - 1] in "smh" {
      assert UnitLength(unit) > 0;
    } else {
      assert UnitLength(unit) == 0;
    }
  }
}
