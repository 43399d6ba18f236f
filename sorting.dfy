/**
  Stand-in for Go's `sort.Slice` and `sort.Float64s`: a sort by a real-valued key.
  Go's sort is not stable, so the only promise made is that the result is a
  permutation of the input that is non-decreasing in the key; nothing is said
  about the order of elements whose keys are equal.
 */
module Sorting {

  /** `s` is non-decreasing in `key`. */
  ghost predicate SortedBy<T>(s: seq<T>, key: T -> real) {
    forall i, j :: 0 <= i < j < |s| ==> key(s[i]) <= key(s[j])
  }

  /** The keys of `s`, in order. */
  function Keys<T>(s: seq<T>, key: T -> real): (r: seq<real>)
    ensures |r| == |s| && forall i :: 0 <= i < |s| ==> r[i] == key(s[i])
  {
    seq(|s|, i requires 0 <= i < |s| => key(s[i]))
  }

  /** The identity key, used to sort plain measures. */
  function Id(x: real): (r: real) { x }

  /** Inserts `x` in front of the first element of `s` whose key is not smaller. */
  function Insert<T>(x: T, s: seq<T>, key: T -> real): (r: seq<T>)
    ensures |r| == |s| + 1
    ensures multiset(r) == multiset(s) + multiset{x}
  {
    if s == [] then [x]
    else if key(x) <= key(s[0]) then [x] + s
    else
      assert s == [s[0]] + s[1..];
      [s[0]] + Insert(x, s[1..], key)
  }

  lemma TailSortedBy<T>(s: seq<T>, key: T -> real)
    requires SortedBy(s, key) && s != []
    ensures SortedBy(s[1..], key)
  {
    var tail := s[1..];
    forall a, b | 0 <= a < b < |tail| ensures key(tail[a]) <= key(tail[b]) {
      assert tail[a] == s[a + 1] && tail[b] == s[b + 1];
    }
  }

  lemma ConsSortedBy<T>(h: T, rest: seq<T>, key: T -> real)
    requires SortedBy(rest, key)
    requires forall j :: 0 <= j < |rest| ==> key(h) <= key(rest[j])
    ensures SortedBy([h] + rest, key)
  {
    var r := [h] + rest;
    forall a, b | 0 <= a < b < |r| ensures key(r[a]) <= key(r[b]) {
      assert r[b] == rest[b - 1];
      if a > 0 {
        assert r[a] == rest[a - 1];
      }
    }
  }

  /** Inserting into a sorted sequence keeps it sorted, and puts nothing below both `x` and the old head. */
  lemma {:induction false} InsertSorted<T>(x: T, s: seq<T>, key: T -> real)
    requires SortedBy(s, key)
    ensures SortedBy(Insert(x, s, key), key)
    ensures forall j :: 0 <= j < |s| + 1 ==>
      key(x) <= key(Insert(x, s, key)[j]) || (|s| > 0 && key(s[0]) <= key(Insert(x, s, key)[j]))
  {
    if s == [] {
    } else if key(x) <= key(s[0]) {
      ConsSortedBy(x, s, key);
    } else {
      var tail := s[1..];
      TailSortedBy(s, key);
      InsertSorted(x, tail, key);
      var rest := Insert(x, tail, key);
      if |s| > 1 {
        assert key(s[0]) <= key(s[1]) && tail[0] == s[1];
      }
      assert forall j :: 0 <= j < |rest| ==> key(s[0]) <= key(rest[j]);
      ConsSortedBy(s[0], rest, key);
    }
  }

  /** An insertion sort by `key`: a permutation of `s`, non-decreasing in `key`. */
  function SortBy<T>(s: seq<T>, key: T -> real): (r: seq<T>)
    ensures |r| == |s|
    ensures multiset(r) == multiset(s)
    ensures SortedBy(r, key)
  {
    if s == [] then []
    else
      assert s == [s[0]] + s[1..];
      var sortedTail := SortBy(s[1..], key);
      InsertSorted(s[0], sortedTail, key);
      Insert(s[0], sortedTail, key)
  }

  lemma {:induction false} KeysConcat<T>(a: seq<T>, b: seq<T>, key: T -> real)
    ensures Keys(a + b, key) == Keys(a, key) + Keys(b, key)
  {
    assert |Keys(a + b, key)| == |Keys(a, key) + Keys(b, key)|;
    forall i | 0 <= i < |a + b|
      ensures Keys(a + b, key)[i] == (Keys(a, key) + Keys(b, key))[i]
    {
      if i < |a| {
        assert (a + b)[i] == a[i];
      } else {
        assert (a + b)[i] == b[i - |a|];
      }
    }
  }

  /** Permuting a sequence permutes its keys. */
  lemma {:induction false} KeysPermutation<T>(a: seq<T>, b: seq<T>, key: T -> real)
    requires multiset(a) == multiset(b)
    ensures multiset(Keys(a, key)) == multiset(Keys(b, key))
    decreases |a|
  {
    if a == [] {
      assert |b| == |multiset(b)| == 0;
    } else {
      var x := a[0];
      assert x in multiset(b);
      var k :| 0 <= k < |b| && b[k] == x;
      var b' := b[..k] + b[k + 1..];
      assert b == b[..k] + [x] + b[k + 1..];
      assert a == [x] + a[1..];
      assert multiset(b) == multiset(b[..k]) + multiset{x} + multiset(b[k + 1..]);
      assert multiset(b') == multiset(b[..k]) + multiset(b[k + 1..]);
      assert multiset(a) == multiset{x} + multiset(a[1..]);
      assert multiset(b') == multiset(b) - multiset{x};
      assert multiset(a[1..]) == multiset(a) - multiset{x};
      KeysPermutation(a[1..], b', key);
      KeysConcat(b[..k], [x], key);
      KeysConcat(b[..k] + [x], b[k + 1..], key);
      KeysConcat(b[..k], b[k + 1..], key);
      KeysConcat([x], a[1..], key);
    }
  }

  /** The head of a non-decreasing sequence is below every element of it. */
  lemma HeadIsLeast(x: seq<real>, v: real)
    requires SortedBy(x, Id) && v in multiset(x)
    ensures x[0] <= v
  {
    var i :| 0 <= i < |x| && x[i] == v;
    if i > 0 { assert Id(x[0]) <= Id(x[i]); }
  }

  lemma TailSorted(x: seq<real>)
    requires SortedBy(x, Id) && x != []
    ensures SortedBy(x[1..], Id)
    ensures multiset(x[1..]) == multiset(x) - multiset{x[0]}
    ensures x == [x[0]] + x[1..]
  {
    TailSortedBy(x, Id);
    assert x == [x[0]] + x[1..];
    assert multiset(x) == multiset{x[0]} + multiset(x[1..]);
  }

  /** Two non-decreasing sequences with the same elements start with the same element. */
  lemma HeadsAgree(x: seq<real>, y: seq<real>)
    requires SortedBy(x, Id) && SortedBy(y, Id)
    requires multiset(x) == multiset(y) && x != []
    ensures y != [] && x[0] == y[0]
  {
    assert |y| == |multiset(y)| == |multiset(x)| == |x|;
    assert y[0] in multiset(x);
    HeadIsLeast(x, y[0]);
    assert x[0] in multiset(y);
    HeadIsLeast(y, x[0]);
  }

  /** Two non-decreasing sequences of reals with the same elements are equal. */
  lemma {:induction false} AscendingUnique(x: seq<real>, y: seq<real>)
    requires SortedBy(x, Id) && SortedBy(y, Id)
    requires multiset(x) == multiset(y)
    ensures x == y
    decreases |x|
  {
    if x == [] {
      assert |y| == |multiset(y)| == 0;
    } else {
      HeadsAgree(x, y);
      TailSorted(x);
      TailSorted(y);
      var xs, ys := x[1..], y[1..];
      AscendingUnique(xs, ys);
    }
  }

  lemma KeysSorted<T>(s: seq<T>, key: T -> real)
    requires SortedBy(s, key)
    ensures SortedBy(Keys(s, key), Id)
  {
  }

  /**
    Whatever order an unstable sort leaves among equal keys, the sequence of
    keys it produces is always the same one: the keys of the input, sorted.
   */
  lemma SortedKeysDetermined<T>(s: seq<T>, r: seq<T>, key: T -> real)
    requires SortedBy(r, key) && multiset(r) == multiset(s)
    ensures Keys(r, key) == SortBy(Keys(s, key), Id)
  {
    KeysPermutation(r, s, key);
    KeysSorted(r, key);
    AscendingUnique(Keys(r, key), SortBy(Keys(s, key), Id));
  }
  /** Number of values strictly below `q`. */
  function CountBelow(xs: seq<real>, q: real): (r: nat)
    ensures r <= |xs|
  {
    if xs == [] then 0
    else CountBelow(xs[..|xs| - 1], q) + (if xs[|xs| - 1] < q then 1 else 0)
  }

  /** Number of values strictly above `q`. */
  function CountAbove(xs: seq<real>, q: real): (r: nat)
    ensures r <= |xs|
  {
    if xs == [] then 0
    else CountAbove(xs[..|xs| - 1], q) + (if xs[|xs| - 1] > q then 1 else 0)
  }

  lemma CountsStep(xs: seq<real>, i: int, lo: real, hi: real)
    requires 0 <= i < |xs|
    ensures CountBelow(xs[..i + 1], lo) == CountBelow(xs[..i], lo) + (if xs[i] < lo then 1 else 0)
    ensures CountAbove(xs[..i + 1], hi) == CountAbove(xs[..i], hi) + (if xs[i] > hi then 1 else 0)
  {
    assert xs[..i + 1][..i] == xs[..i];
  }

  lemma InitSorted(xs: seq<real>)
    requires SortedBy(xs, Id) && xs != []
    ensures SortedBy(xs[..|xs| - 1], Id)
  {
    var init := xs[..|xs| - 1];
    forall a, b | 0 <= a < b < |init| ensures Id(init[a]) <= Id(init[b]) {
      assert init[a] == xs[a] && init[b] == xs[b];
    }
  }

  /** In an ascending sequence the values below `q` are exactly the first `CountBelow(xs, q)`. */
  lemma {:induction false} BelowIsPrefix(xs: seq<real>, q: real)
    requires SortedBy(xs, Id)
    ensures forall j :: 0 <= j < |xs| ==> (xs[j] < q <==> j < CountBelow(xs, q))
    decreases |xs|
  {
    if xs != [] {
      var n := |xs|;
      var init := xs[..n - 1];
      InitSorted(xs);
      BelowIsPrefix(init, q);
      if xs[n - 1] < q {
        forall j | 0 <= j < n - 1 ensures xs[j] < q {
          assert Id(xs[j]) <= Id(xs[n - 1]);
        }
        assert CountBelow(init, q) == n - 1;
      }
      forall j | 0 <= j < n ensures xs[j] < q <==> j < CountBelow(xs, q) {
        if j < n - 1 {
          assert init[j] == xs[j];
        }
      }
    }
  }

  /** In an ascending sequence the values above `q` are exactly the last `CountAbove(xs, q)`. */
  lemma {:induction false} AboveIsSuffix(xs: seq<real>, q: real)
    requires SortedBy(xs, Id)
    ensures forall j :: 0 <= j < |xs| ==> (xs[j] > q <==> j >= |xs| - CountAbove(xs, q))
    decreases |xs|
  {
    if xs != [] {
      var n := |xs|;
      var init := xs[..n - 1];
      InitSorted(xs);
      AboveIsSuffix(init, q);
      if xs[n - 1] <= q {
        assert CountAbove(init, q) == 0;
      }
      forall j | 0 <= j < n ensures xs[j] > q <==> j >= n - CountAbove(xs, q) {
        if j < n - 1 {
          assert init[j] == xs[j];
          if xs[n - 1] <= q {
            assert Id(xs[j]) <= Id(xs[n - 1]);
          }
        }
      }
    }
  }
}
