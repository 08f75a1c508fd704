/**
 * The two-sample Kolmogorov-Smirnov statistic D that `stats.ks_2samp`
 * returns: the largest absolute difference between the two empirical
 * distribution functions, evaluated at every point of the pooled sample.
 */
module KolmogorovSmirnov {
  import opened Wrappers
  import opened Samples

  function Abs(x: real): real
  {
    if x < 0.0 then -x else x
  }

  /** The empirical distribution function: the share of the sample at most `x`. */
  function Ecdf(s: seq<real>, x: real): (p: real)
    requires |s| > 0
    ensures 0.0 <= p <= 1.0
  {
    CountAtMost(s, x) as real / |s| as real
  }

  function Gap(a: seq<real>, b: seq<real>, x: real): (g: real)
    requires |a| > 0 && |b| > 0
    ensures 0.0 <= g <= 1.0
  {
    Abs(Ecdf(a, x) - Ecdf(b, x))
  }

  /** The largest gap at the given points; 0 when there are none. */
  function MaxGap(a: seq<real>, b: seq<real>, points: seq<real>): (d: real)
    requires |a| > 0 && |b| > 0
    ensures 0.0 <= d <= 1.0
    ensures forall i :: 0 <= i < |points| ==> Gap(a, b, points[i]) <= d
    ensures points == [] ==> d == 0.0
    ensures points != [] ==> exists i :: 0 <= i < |points| && Gap(a, b, points[i]) == d
  {
    if points == [] then 0.0
    else
      var rest := MaxGap(a, b, points[1..]);
      var g := Gap(a, b, points[0]);
      assert forall i :: 1 <= i < |points| ==> points[i] == points[1..][i - 1];
      if g >= rest then g else rest
  }

  /** D, evaluated at every point of the pooled sample as scipy does. */
  function KsStatistic(a: seq<real>, b: seq<real>): (d: real)
    requires |a| > 0 && |b| > 0
    ensures 0.0 <= d <= 1.0
    ensures forall i :: 0 <= i < |a| ==> Gap(a, b, a[i]) <= d
    ensures forall j :: 0 <= j < |b| ==> Gap(a, b, b[j]) <= d
    ensures exists x :: x in a + b && d == Gap(a, b, x)
  {
    assert forall i :: 0 <= i < |a| ==> (a + b)[i] == a[i];
    assert forall j :: 0 <= j < |b| ==> (a + b)[|a| + j] == b[j];
    MaxGap(a, b, a + b)
  }

  /** The largest point of `points` that is at most `x`, if any. */
  function LargestAtMost(points: seq<real>, x: real): (r: Option<real>)
    ensures r.None? ==> forall i :: 0 <= i < |points| ==> x < points[i]
    ensures r.Some? ==> r.value in points && r.value <= x
    ensures r.Some? ==> forall i :: 0 <= i < |points| && points[i] <= x ==> points[i] <= r.value
  {
    if points == [] then None
    else
      var rest := LargestAtMost(points[1..], x);
      assert forall i :: 1 <= i < |points| ==> points[i] == points[1..][i - 1];
      if points[0] > x then rest
      else if rest.Some? && rest.value > points[0] then rest
      else Some(points[0])
  }

  /** Every value of a sample is a point of the pooled sample. */
  lemma InPooled(a: seq<real>, b: seq<real>, points: seq<real>)
    requires points == a + b
    ensures forall i :: 0 <= i < |a| ==> a[i] in points
    ensures forall i :: 0 <= i < |b| ==> b[i] in points
  {
    assert forall i :: 0 <= i < |a| ==> a[i] == points[i];
    assert forall i :: 0 <= i < |b| ==> b[i] == points[|a| + i];
  }

  /** With no pooled point lying in (y, x], the gap at x is the gap at y. */
  lemma GapStable(a: seq<real>, b: seq<real>, y: real, x: real)
    requires |a| > 0 && |b| > 0 && y <= x
    requires forall i :: 0 <= i < |a| ==> !(y < a[i] <= x)
    requires forall i :: 0 <= i < |b| ==> !(y < b[i] <= x)
    ensures Gap(a, b, x) == Gap(a, b, y)
  {
    CountAtMostStable(a, y, x);
    CountAtMostStable(b, y, x);
  }

  /** Below every point both distribution functions are 0. */
  lemma GapBelowAll(a: seq<real>, b: seq<real>, x: real)
    requires |a| > 0 && |b| > 0
    requires forall i :: 0 <= i < |a| ==> x < a[i]
    requires forall i :: 0 <= i < |b| ==> x < b[i]
    ensures Gap(a, b, x) == 0.0
  {
    CountAtMostNone(a, x);
    CountAtMostNone(b, x);
  }

  /** D bounds the gap at every real `x`, not only at the sample points. */
  lemma KsIsSupremum(a: seq<real>, b: seq<real>, x: real)
    requires |a| > 0 && |b| > 0
    ensures 0.0 <= Gap(a, b, x) <= KsStatistic(a, b) <= 1.0
  {
    var points := a + b;
    var below := LargestAtMost(points, x);
    InPooled(a, b, points);
    if below.None? {
      GapBelowAll(a, b, x);
    } else {
      var y := below.value;
      GapStable(a, b, y, x);
      var i :| 0 <= i < |points| && points[i] == y;
    }
  }

  /** D is 0 exactly when the two empirical distribution functions agree everywhere. */
  lemma KsZeroIff(a: seq<real>, b: seq<real>)
    requires |a| > 0 && |b| > 0
    ensures KsStatistic(a, b) == 0.0 <==> forall x :: Ecdf(a, x) == Ecdf(b, x)
  {
    if KsStatistic(a, b) == 0.0 {
      forall x ensures Ecdf(a, x) == Ecdf(b, x) {
        KsIsSupremum(a, b, x);
      }
    }
  }

  /** The statistic does not depend on which sample is the reference. */
  lemma KsSymmetric(a: seq<real>, b: seq<real>)
    requires |a| > 0 && |b| > 0
    ensures KsStatistic(a, b) == KsStatistic(b, a)
  {
    var d, e := KsStatistic(a, b), KsStatistic(b, a);
    var i :| 0 <= i < |a + b| && Gap(a, b, (a + b)[i]) == d;
    var j :| 0 <= j < |b + a| && Gap(b, a, (b + a)[j]) == e;
    KsIsSupremum(a, b, (b + a)[j]);
    KsIsSupremum(b, a, (a + b)[i]);
  }

  /** Two samples holding the same values, in any order, have D = 0. */
  lemma KsOfPermutation(a: seq<real>, b: seq<real>)
    requires |a| > 0 && multiset(a) == multiset(b)
    ensures |b| > 0 && KsStatistic(a, b) == 0.0
  {
    PermutationInvariant(a, b);
    KsZeroIff(a, b);
  }
}
