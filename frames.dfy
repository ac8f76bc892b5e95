/**
 * Per-frame pitch series shared by every pass of the pipeline.
 *
 * The source keeps a pitch contour as a float array in which numpy's NaN marks
 * an unvoiced frame. Here a frame is either `Unvoiced` or `Voiced(hz)`.
 *
 * Cents comparisons. The source compares |1200·log2(a/b)| with a threshold of
 * 1200/k cents (k = 2 for 600 cents, k = 6 for 200 cents, k = 10 for 120 cents).
 * For a positive ratio r = a/b that comparison is exactly a comparison of r^k
 * with 2 and 1/2, because x ↦ x^k is increasing on positive reals:
 *   |1200·log2 r| > 1200/k  <=>  r^k > 2 or r^k < 1/2.
 * So no logarithm is needed. Non-positive ratios follow numpy: log2 of a
 * negative number is NaN (every comparison false), log2 0 is -inf.
 */
module Frames {

  datatype Frame = Unvoiced | Voiced(hz: real)

  /** x raised to a natural power. */
  function Pow(x: real, k: nat): real
  {
    if k == 0 then 1.0 else x * Pow(x, k - 1)
  }

  lemma PowTwo(x: real)
    ensures Pow(x, 2) == x * x
  {
    assert Pow(x, 1) == x;
  }

  /** |1200·log2(a / b)| > 1200 / k, as numpy evaluates it. A zero divisor
      gives +inf for a > 0 and NaN otherwise (signed zeros are not modelled).
      A frame is never further than any threshold from itself, and "further
      than" excludes "closer than". */
  predicate CentsAbove(a: real, b: real, k: nat): (r: bool)
    ensures a == b ==> !r
    ensures r ==> !CentsBelow(a, b, k)
  {
    PowOne(k);
    if b == 0.0 then a > 0.0
    else
      var ratio := a / b;
      assert a == b ==> ratio == 1.0;
      if ratio < 0.0 then false
      else if ratio == 0.0 then true
      else Pow(ratio, k) > 2.0 || 2.0 * Pow(ratio, k) < 1.0
  }

  /** |1200·log2(a / b)| < 1200 / k, as numpy evaluates it. A non-zero frame is
      within every threshold of itself, and two frames within a threshold of
      each other are non-zero and of one sign. */
  predicate CentsBelow(a: real, b: real, k: nat): (r: bool)
    ensures a != 0.0 && a == b ==> r
    ensures r ==> a != 0.0 && b != 0.0 && (a > 0.0 <==> b > 0.0)
  {
    PowOne(k);
    assert a != 0.0 && a == b ==> a / b == 1.0;
    b != 0.0 && a / b > 0.0 && Pow(a / b, k) < 2.0 && 2.0 * Pow(a / b, k) > 1.0
  }

  lemma {:induction false} PowOne(k: nat)
    ensures Pow(1.0, k) == 1.0
  {
    if k > 0 {
      PowOne(k - 1);
    }
  }

  /** Powers of a positive ratio are positive, and the power of the inverse
      ratio is the inverse of the power. */
  lemma {:induction false} PowInverse(x: real, k: nat)
    requires x > 0.0
    ensures Pow(x, k) > 0.0
    ensures Pow(1.0 / x, k) == 1.0 / Pow(x, k)
  {
    if k > 0 {
      PowInverse(x, k - 1);
      var p := Pow(x, k - 1);
      assert (1.0 / x) * (1.0 / p) == 1.0 / (x * p);
    }
  }

  /** For a positive power P of the ratio, the power of the inverse ratio, 1/P,
      crosses 2 and 1/2 exactly when P crosses 1/2 and 2. */
  lemma InverseCrossings(p: real)
    requires p > 0.0
    ensures 1.0 / p > 2.0 <==> 2.0 * p < 1.0
    ensures 2.0 * (1.0 / p) < 1.0 <==> p > 2.0
    ensures 1.0 / p < 2.0 <==> 2.0 * p > 1.0
    ensures 2.0 * (1.0 / p) > 1.0 <==> p < 2.0
  {
  }

  /** The distance in cents does not depend on which frequency is the
      reference: |1200·log2(a/b)| == |1200·log2(b/a)| for positive a and b. */
  lemma CentsSymmetric(a: real, b: real, k: nat)
    requires a > 0.0 && b > 0.0
    ensures CentsAbove(a, b, k) <==> CentsAbove(b, a, k)
    ensures CentsBelow(a, b, k) <==> CentsBelow(b, a, k)
  {
    var r := a / b;
    assert b / a == 1.0 / r;
    PowInverse(r, k);
    InverseCrossings(Pow(r, k));
  }

  /** Every voiced frame carries a positive frequency (what the pitch trackers deliver). */
  predicate PositiveWhereVoiced(s: seq<Frame>)
  {
    forall k :: 0 <= k < |s| && s[k].Voiced? ==> s[k].hz > 0.0
  }

  /** Start of the maximal block of frames around k that share k's voicing. */
  function RunStart(s: seq<Frame>, k: nat): (r: nat)
    requires k < |s|
    ensures r <= k
    ensures forall m :: r <= m <= k ==> s[m].Voiced? == s[k].Voiced?
    ensures r == 0 || s[r - 1].Voiced? != s[k].Voiced?
    decreases k
  {
    if k > 0 && s[k - 1].Voiced? == s[k].Voiced? then RunStart(s, k - 1) else k
  }

  /** End (exclusive) of the maximal block of frames around k that share k's voicing. */
  function RunEnd(s: seq<Frame>, k: nat): (r: nat)
    requires k < |s|
    ensures k < r <= |s|
    ensures forall m :: k <= m < r ==> s[m].Voiced? == s[k].Voiced?
    ensures r == |s| || s[r].Voiced? != s[k].Voiced?
    decreases |s| - k
  {
    if k + 1 < |s| && s[k + 1].Voiced? == s[k].Voiced? then RunEnd(s, k + 1) else k + 1
  }

  /** [i, j) is a maximal non-empty block of frames of one voicing. */
  predicate IsRun(s: seq<Frame>, i: nat, j: nat)
  {
    && i < j <= |s|
    && (forall m :: i <= m < j ==> s[m].Voiced? == s[i].Voiced?)
    && (i == 0 || s[i - 1].Voiced? != s[i].Voiced?)
    && (j == |s| || s[j].Voiced? != s[i].Voiced?)
  }

  /** RunStart and RunEnd find exactly the maximal run that contains k. */
  lemma RunBounds(s: seq<Frame>, i: nat, j: nat, k: nat)
    requires IsRun(s, i, j) && i <= k < j
    ensures RunStart(s, k) == i && RunEnd(s, k) == j
  {
  }

  /** The run found around k is a maximal run. */
  lemma RunAround(s: seq<Frame>, k: nat)
    requires k < |s|
    ensures IsRun(s, RunStart(s, k), RunEnd(s, k))
  {
  }

  /** Two series with the same voicing mask have the same runs. */
  lemma RunsFollowMask(s: seq<Frame>, t: seq<Frame>, k: nat)
    requires |s| == |t| && k < |s|
    requires forall m :: 0 <= m < |s| ==> s[m].Voiced? == t[m].Voiced?
    ensures RunStart(s, k) == RunStart(t, k) && RunEnd(s, k) == RunEnd(t, k)
  {
    RunAround(s, k);
    RunBounds(t, RunStart(s, k), RunEnd(s, k), k);
  }

  /** The voiced values of a series, in frame order (numpy's `x[~np.isnan(x)]`). */
  function VoicedValues(s: seq<Frame>): (v: seq<real>)
    ensures |v| <= |s|
    ensures |v| == 0 <==> forall k :: 0 <= k < |s| ==> s[k].Unvoiced?
  {
    if s == [] then []
    else (if s[0].Voiced? then [s[0].hz] else []) + VoicedValues(s[1..])
  }

  /** Every voiced value is one of the frames' frequencies. */
  lemma VoicedValuesFrom(s: seq<Frame>, x: real)
    requires x in VoicedValues(s)
    ensures exists k :: 0 <= k < |s| && s[k] == Voiced(x)
  {
    if s[0].Voiced? && x == s[0].hz {
    } else {
      VoicedValuesFrom(s[1..], x);
      var k :| 0 <= k < |s[1..]| && s[1..][k] == Voiced(x);
      assert s[k + 1] == Voiced(x);
    }
  }

  function Min(v: seq<real>): (m: real)
    requires |v| > 0
    ensures forall p :: 0 <= p < |v| ==> m <= v[p]
    ensures m in v
  {
    if |v| == 1 then v[0]
    else var t := Min(v[1..]); if v[0] <= t then v[0] else t
  }

  function Max(v: seq<real>): (m: real)
    requires |v| > 0
    ensures forall p :: 0 <= p < |v| ==> v[p] <= m
    ensures m in v
  {
    if |v| == 1 then v[0]
    else var t := Max(v[1..]); if v[0] >= t then v[0] else t
  }

  /** The one fact the model uses about a median (numpy's median and nanmedian,
      which stay abstract here): it lies between the least and greatest value. */
  ghost predicate MedianBounded(median: seq<real> -> real)
  {
    forall v {:trigger median(v)} :: |v| > 0 ==> Min(v) <= median(v) <= Max(v)
  }

  /** A bounded median of positive values is positive. */
  lemma PositiveMedian(median: seq<real> -> real, v: seq<real>)
    requires MedianBounded(median) && |v| > 0
    requires forall x :: x in v ==> x > 0.0
    ensures median(v) > 0.0
  {
    assert Min(v) in v;
  }

  /** Voiced values of a series whose voiced frames are positive are positive. */
  lemma PositiveVoicedValues(s: seq<Frame>)
    requires PositiveWhereVoiced(s)
    ensures forall x :: x in VoicedValues(s) ==> x > 0.0
  {
    forall x | x in VoicedValues(s) ensures x > 0.0 {
      VoicedValuesFrom(s, x);
    }
  }
}
