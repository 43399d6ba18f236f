/**
  Stand-in for Go's `strconv.Atoi` as the time-series code uses it: the error
  result is discarded, so a malformed input reads as 0 and an out-of-range
  input reads as the nearest 64-bit bound (the value `Atoi` returns beside its
  range error).
 */
module Strconv {

  const MaxInt64: int := 0x7fff_ffff_ffff_ffff
  const MinInt64: int := -0x8000_0000_0000_0000

  predicate IsDigit(c: char) { '0' <= c <= '9' }

  predicate AllDigits(s: string) {
    forall i :: 0 <= i < |s| ==> IsDigit(s[i])
  }

  predicate IsSign(c: char) { c == '+' || c == '-' }

  /** The decimal value of a string of digits, most significant digit first. */
  function DigitsValue(s: string): (r: nat)
    requires AllDigits(s)
  {
    if s == [] then 0
    else DigitsValue(s[..|s| - 1]) * 10 + (s[|s| - 1] as int - '0' as int)
  }

  /** Saturation to the int64 range. */
  function Clamp64(v: int): (r: int)
    ensures MinInt64 <= r <= MaxInt64
    ensures MinInt64 <= v <= MaxInt64 ==> r == v
  {
    if v > MaxInt64 then MaxInt64 else if v < MinInt64 then MinInt64 else v
  }

  /** What `Atoi` accepts: an optional sign followed by at least one decimal digit. */
  predicate WellFormedInt(s: string) {
    if |s| >= 1 && IsSign(s[0]) then |s| >= 2 && AllDigits(s[1..])
    else |s| >= 1 && AllDigits(s)
  }

  /** `strconv.Atoi(s)` with its error ignored. */
  function Atoi(s: string): (r: int)
    ensures MinInt64 <= r <= MaxInt64
    ensures !WellFormedInt(s) ==> r == 0
  {
    if |s| == 0 then 0
    else if IsSign(s[0]) then
      if |s| >= 2 && AllDigits(s[1..]) then
        Clamp64(if s[0] == '-' then 0 - DigitsValue(s[1..]) as int else DigitsValue(s[1..]))
      else 0
    else if AllDigits(s) then Clamp64(DigitsValue(s))
    else 0
  }

  /** Decimal rendering of a natural number, without sign or leading zeros. */
  function Itoa(n: nat): (s: string)
    ensures |s| >= 1 && AllDigits(s)
  {
    var d := ['0' + (n % 10) as char];
    if n < 10 then d else Itoa(n / 10) + d
  }

  lemma {:induction false} DigitsValueOfItoa(n: nat)
    ensures AllDigits(Itoa(n)) && DigitsValue(Itoa(n)) == n
  {
    var s := Itoa(n);
    if n >= 10 {
      DigitsValueOfItoa(n / 10);
      assert s[..|s| - 1] == Itoa(n / 10);
    }
  }

  /** `Atoi` reads back every non-negative int64 that `Itoa` writes. */
  lemma AtoiItoa(n: nat)
    requires n <= MaxInt64
    ensures Atoi(Itoa(n)) == n
  {
    DigitsValueOfItoa(n);
    assert !IsSign(Itoa(n)[0]);
  }
}
