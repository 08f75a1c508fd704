/**
 * Descriptive statistics of a sample of reals: the sum and arithmetic mean
 * (pandas' `Series.mean()` on a null-free column) and the number of values
 * at most a threshold, from which the empirical distribution function is built.
 */
module Samples {

  function Sum(s: seq<real>): real
  {
    if s == [] then 0.0 else s[0] + Sum(s[1..])
  }

  /** The arithmetic mean; a constant sample has that constant as its mean. */
  function Mean(s: seq<real>): (m: real)
    requires |s| > 0
    ensures (forall i :: 0 <= i < |s| ==> s[i] == s[0]) ==> m == s[0]
  {
    ConstantSum(s);
    Sum(s) / |s| as real
  }

  lemma ConstantSum(s: seq<real>)
    requires |s| > 0
    ensures (forall i :: 0 <= i < |s| ==> s[i] == s[0]) ==> Sum(s) == |s| as real * s[0]
  {
    if forall i :: 0 <= i < |s| ==> s[i] == s[0] {
      SumBounds(s, s[0], s[0]);
    }
  }

  /** How many values of `s` are at most `x`. */
  function CountAtMost(s: seq<real>, x: real): (n: nat)
    ensures n <= |s|
  {
    if s == [] then 0 else (if s[0] <= x then 1 else 0) + CountAtMost(s[1..], x)
  }

  lemma {:induction false} Concat(a: seq<real>, b: seq<real>)
    ensures Sum(a + b) == Sum(a) + Sum(b)
    ensures forall x :: CountAtMost(a + b, x) == CountAtMost(a, x) + CountAtMost(b, x)
  {
    if a != [] {
      Concat(a[1..], b);
      assert (a + b)[1..] == a[1..] + b;
    } else {
      assert a + b == b;
    }
  }

  /** Removing the value at `k` takes it out of the sum and out of every count it is in. */
  lemma RemoveAt(b: seq<real>, k: nat)
    requires k < |b|
    ensures Sum(b) == b[k] + Sum(b[..k] + b[k + 1..])
    ensures forall x :: CountAtMost(b, x) == (if b[k] <= x then 1 else 0) + CountAtMost(b[..k] + b[k + 1..], x)
  {
    var right := [b[k]] + b[k + 1..];
    assert b == b[..k] + right;
    Concat(b[..k], right);
    Concat(b[..k], b[k + 1..]);
    assert right[0] == b[k] && right[1..] == b[k + 1..];
  }

  /** Matching the head of `a` with position `k` of `b` leaves two equal multisets. */
  lemma MultisetRest(a: seq<real>, b: seq<real>, k: nat)
    requires multiset(a) == multiset(b) && a != [] && k < |b| && b[k] == a[0]
    ensures multiset(a[1..]) == multiset(b[..k] + b[k + 1..])
  {
    assert b == b[..k] + [b[k]] + b[k + 1..];
    assert multiset(b) == multiset(b[..k]) + multiset{b[k]} + multiset(b[k + 1..]);
    assert a == [a[0]] + a[1..];
    assert multiset(a) == multiset{a[0]} + multiset(a[1..]);
    assert multiset(b[..k] + b[k + 1..]) == multiset(b[..k]) + multiset(b[k + 1..]);
    assert multiset(a[1..]) == multiset(a) - multiset{a[0]};
  }

  /** The sum and the counts depend only on the multiset of values, not on their order. */
  lemma {:induction false} PermutationInvariant(a: seq<real>, b: seq<real>)
    requires multiset(a) == multiset(b)
    ensures |a| == |b| && Sum(a) == Sum(b)
    ensures forall x :: CountAtMost(a, x) == CountAtMost(b, x)
    decreases |a|
  {
    assert |a| == |multiset(a)| == |multiset(b)| == |b|;
    if a != [] {
      assert a[0] in multiset(b);
      var k :| 0 <= k < |b| && b[k] == a[0];
      MultisetRest(a, b, k);
      PermutationInvariant(a[1..], b[..k] + b[k + 1..]);
      RemoveAt(b, k);
    }
  }

  lemma {:induction false} SumBounds(s: seq<real>, lo: real, hi: real)
    requires forall i :: 0 <= i < |s| ==> lo <= s[i] <= hi
    ensures |s| as real * lo <= Sum(s) <= |s| as real * hi
  {
    if s != [] {
      SumBounds(s[1..], lo, hi);
      assert |s| as real * lo == lo + (|s| - 1) as real * lo;
      assert |s| as real * hi == hi + (|s| - 1) as real * hi;
    }
  }

  /** The mean lies between any lower and any upper bound of the values. */
  lemma MeanBounds(s: seq<real>, lo: real, hi: real)
    requires |s| > 0
    requires forall i :: 0 <= i < |s| ==> lo <= s[i] <= hi
    ensures lo <= Mean(s) <= hi
  {
    SumBounds(s, lo, hi);
    DivideBetween(Sum(s), |s| as real, lo, hi);
  }

  /** Dividing a total between `n * lo` and `n * hi` by a positive `n` lands between `lo` and `hi`. */
  lemma DivideBetween(total: real, n: real, lo: real, hi: real)
    requires n > 0.0 && n * lo <= total <= n * hi
    ensures lo <= total / n <= hi
  {
    assert total / n - lo == (total - n * lo) / n;
    assert hi - total / n == (n * hi - total) / n;
  }

  /** Values above `x` do not count. */
  lemma {:induction false} CountAtMostNone(s: seq<real>, x: real)
    requires forall i :: 0 <= i < |s| ==> x < s[i]
    ensures CountAtMost(s, x) == 0
  {
    if s != [] {
      CountAtMostNone(s[1..], x);
    }
  }

  /** Raising the threshold from `y` to `x` changes nothing when no value lies in (y, x]. */
  lemma {:induction false} CountAtMostStable(s: seq<real>, y: real, x: real)
    requires y <= x
    requires forall i :: 0 <= i < |s| ==> !(y < s[i] <= x)
    ensures CountAtMost(s, x) == CountAtMost(s, y)
  {
    if s != [] {
      CountAtMostStable(s[1..], y, x);
    }
  }
}
