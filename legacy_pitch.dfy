/**
 * The older pitch helpers embedded in generate_project.py: the 2:1 octave
 * corrector `correct_octave_jumps` and the interquartile outlier filter
 * `remove_iqr`. `np.percentile` stays abstract.
 */
module LegacyPitch {
  import opened Frames

  /** What correct_octave_jumps makes of frame i. The ratio is taken against the
      ORIGINAL predecessor s[i-1]: the corrected copy is never read. A zero
      predecessor gives numpy an infinite or NaN ratio, inside neither band.
      Voicing is kept, and the frame changes exactly when that ratio lies in an
      octave band. */
  function OctaveFixAt(s: seq<Frame>, i: nat): (r: Frame)
    requires i < |s|
    ensures r.Voiced? == s[i].Voiced?
    ensures r != s[i] <==> i > 0 && InOctaveBand(s, i)
  {
    if i == 0 || s[i].Unvoiced? || s[i - 1].Unvoiced? || s[i - 1].hz == 0.0 then s[i]
    else
      var ratio := s[i].hz / s[i - 1].hz;
      if 1.9 < ratio < 2.1 then Voiced(s[i].hz / 2.0)
      else if 0.45 < ratio < 0.55 then Voiced(s[i].hz * 2.0)
      else s[i]
  }

  /** The reference definition of correct_octave_jumps. */
  function OctaveCorrected(s: seq<Frame>): (r: seq<Frame>)
    ensures |r| == |s|
  {
    seq(|s|, i requires 0 <= i < |s| => OctaveFixAt(s, i))
  }

  /** correct_octave_jumps: a copy whose frames 1.. are halved or doubled when
      the ratio to the original predecessor is near 2 or near 1/2. */
  method CorrectOctaveJumps(f0: seq<Frame>) returns (r: seq<Frame>)
    ensures r == OctaveCorrected(f0)
  {
    var n := |f0|;
    var out := new Frame[n](k requires 0 <= k < n => f0[k]);
    var i := 1;
    while i < n
      invariant 1 <= i && (n > 0 ==> i <= n)
      invariant forall k :: 0 <= k < n && k < i ==> out[k] == OctaveFixAt(f0, k)
      invariant forall k :: i <= k < n ==> out[k] == f0[k]
    {
      if f0[i].Unvoiced? || f0[i - 1].Unvoiced? {
        assert out[i] == OctaveFixAt(f0, i);
        i := i + 1;
        continue;
      }
      if f0[i - 1].hz != 0.0 {
        var ratio := f0[i].hz / f0[i - 1].hz;
        if 1.9 < ratio < 2.1 {
          out[i] := Voiced(f0[i].hz / 2.0);
        } else if 0.45 < ratio < 0.55 {
          out[i] := Voiced(f0[i].hz * 2.0);
        }
      }
      assert out[i] == OctaveFixAt(f0, i);
      i := i + 1;
    }
    r := out[..];
  }

  /** The ratio of frame i to its predecessor lies in one of the two octave bands. */
  predicate InOctaveBand(s: seq<Frame>, i: nat)
    requires 0 < i < |s|
  {
    && s[i].Voiced? && s[i - 1].Voiced? && s[i - 1].hz != 0.0
    && var ratio := s[i].hz / s[i - 1].hz;
       (1.9 < ratio < 2.1 || 0.45 < ratio < 0.55)
  }

  /** Voicing is kept, frame 0 is kept, and a frame changes exactly when its ratio
      to the original predecessor lies in an octave band; the corrected frame is
      then within (0.9, 1.1) of that predecessor. */
  lemma OctaveCorrection(s: seq<Frame>, i: nat)
    requires i < |s|
    ensures OctaveCorrected(s)[i].Voiced? == s[i].Voiced?
    ensures i == 0 ==> OctaveCorrected(s)[i] == s[i]
    ensures i > 0 ==> (OctaveCorrected(s)[i] != s[i] <==> InOctaveBand(s, i))
    ensures i > 0 && InOctaveBand(s, i) ==>
      0.9 < OctaveCorrected(s)[i].hz / s[i - 1].hz < 1.1
  {
    if i > 0 && InOctaveBand(s, i) {
      var p, c := s[i - 1].hz, s[i].hz;
      var ratio := c / p;
      assert c == ratio * p;
      if 1.9 < ratio < 2.1 {
        assert (c / 2.0) / p == ratio / 2.0;
      } else {
        assert (c * 2.0) / p == ratio * 2.0;
      }
    }
  }

  /** The examples: the ratio is taken against the original predecessor, so a
      rising chain of octaves is only halved once per step. */
  lemma OctaveExamples()
    ensures OctaveCorrected([Voiced(100.0), Voiced(200.0), Voiced(400.0)])
         == [Voiced(100.0), Voiced(100.0), Voiced(200.0)]
    ensures OctaveCorrected([Voiced(100.0), Voiced(200.0)]) == [Voiced(100.0), Voiced(100.0)]
    ensures OctaveCorrected([Voiced(200.0), Voiced(95.0)]) == [Voiced(200.0), Voiced(190.0)]
    ensures OctaveCorrected([Voiced(100.0), Voiced(150.0)]) == [Voiced(100.0), Voiced(150.0)]
  {
    var a := [Voiced(100.0), Voiced(200.0), Voiced(400.0)];
    assert OctaveFixAt(a, 1) == Voiced(100.0);
    assert OctaveFixAt(a, 2) == Voiced(200.0);
  }

  /** `np.percentile(v, q)` kept abstract: it lies between the least and greatest value. */
  ghost predicate PercentileBounded(percentile: (seq<real>, real) -> real)
  {
    forall v, q :: |v| > 0 ==> Min(v) <= percentile(v, q) <= Max(v)
  }

  /** The fence [q1 - 1.5·iqr, q3 + 1.5·iqr] of a set of voiced values. */
  datatype Fence = Fence(low: real, high: real)

  function FenceOf(v: seq<real>, percentile: (seq<real>, real) -> real): (f: Fence)
  {
    var q1 := percentile(v, 25.0);
    var q3 := percentile(v, 75.0);
    var iqr := q3 - q1;
    Fence(q1 - 1.5 * iqr, q3 + 1.5 * iqr)
  }

  /** A voiced frame outside the fence; a NaN frame compares false both ways. */
  predicate Outlier(x: Frame, f: Fence)
  {
    x.Voiced? && (x.hz < f.low || x.hz > f.high)
  }

  /** remove_iqr: with at least 4 voiced values, every voiced value outside the
      fence becomes NaN; with fewer the input is returned as it is. No value
      is ever altered: a frame stays, or a voiced frame becomes NaN. */
  function RemoveIqr(x: seq<Frame>, percentile: (seq<real>, real) -> real): (y: seq<Frame>)
    ensures |y| == |x|
    ensures forall i :: 0 <= i < |x| ==> y[i] == x[i] || (x[i].Voiced? && y[i] == Unvoiced)
    ensures |VoicedValues(x)| < 4 ==> y == x
  {
    var v := VoicedValues(x);
    if |v| < 4 then x
    else
      var f := FenceOf(v, percentile);
      seq(|x|, i requires 0 <= i < |x| => if Outlier(x[i], f) then Unvoiced else x[i])
  }

  /** remove_iqr never alters a value: a frame either stays as it is or, exactly
      when it is a voiced outlier of at least 4 voiced values, becomes NaN. */
  lemma IqrOnlyNulls(x: seq<Frame>, percentile: (seq<real>, real) -> real, i: nat)
    requires i < |x|
    ensures RemoveIqr(x, percentile)[i] == x[i] || RemoveIqr(x, percentile)[i] == Unvoiced
    ensures RemoveIqr(x, percentile)[i] != x[i]
        <==> |VoicedValues(x)| >= 4 && Outlier(x[i], FenceOf(VoicedValues(x), percentile))
  {
  }

  /** Every value of a series whose voiced frames all equal c is c. */
  lemma ConstantValues(x: seq<Frame>, c: real)
    requires forall k :: 0 <= k < |x| && x[k].Voiced? ==> x[k].hz == c
    ensures forall p :: 0 <= p < |VoicedValues(x)| ==> VoicedValues(x)[p] == c
  {
    var v := VoicedValues(x);
    forall p | 0 <= p < |v| ensures v[p] == c {
      VoicedValuesFrom(x, v[p]);
    }
  }

  /** A series whose voiced frames share one value is left untouched: its
      quartiles coincide, so the fence is that value. */
  lemma IqrKeepsConstant(x: seq<Frame>, percentile: (seq<real>, real) -> real, c: real)
    requires PercentileBounded(percentile)
    requires forall k :: 0 <= k < |x| && x[k].Voiced? ==> x[k].hz == c
    ensures RemoveIqr(x, percentile) == x
  {
    var v := VoicedValues(x);
    if |v| >= 4 {
      ConstantValues(x, c);
      assert Min(v) == c && Max(v) == c;
      var f := FenceOf(v, percentile);
      assert f.low == c && f.high == c;
      forall i | 0 <= i < |x| ensures !Outlier(x[i], f) {
      }
    }
  }
}
