/**
 * The array passes of vocal pitch extraction (src/pitch.py, extract_pitch_vocal).
 *
 * The pitch trackers and the energy measure are external: their per-frame
 * outputs (CREPE frequency and confidence, normalised RMS, the pYIN contour)
 * are inputs here. The passes, in order: truncate every series to the common
 * length, gate on energy and confidence, limit jumps above 600 cents in place,
 * smooth each voiced run on its own, and null frames the pYIN contour vetoes.
 */
module PitchPasses {
  import opened Frames

  const EnergyGate: real := 0.15
  const ConfidenceGate: real := 0.6
  const SmoothWindow: nat := 9
  const VetoConfidence: real := 0.75

  /** `min(len(f0_raw), len(rms), len(f0_pyin))`. */
  function CommonLength(a: nat, b: nat, c: nat): (n: nat)
    ensures n <= a && n <= b && n <= c
    ensures n == a || n == b || n == c
  {
    if a <= b && a <= c then a else if b <= c then b else c
  }

  /** The energy and confidence gate: `np.where((rms > 0.15) & (conf > 0.6), f0_raw, nan)`. */
  function Gate(f0Raw: seq<real>, conf: seq<real>, rms: seq<real>): (g: seq<Frame>)
    requires |conf| == |f0Raw| == |rms|
    ensures |g| == |f0Raw|
    ensures forall i :: 0 <= i < |g| ==>
      (g[i].Voiced? <==> rms[i] > EnergyGate && conf[i] > ConfidenceGate)
    ensures forall i :: 0 <= i < |g| && g[i].Voiced? ==> g[i].hz == f0Raw[i]
  {
    seq(|f0Raw|, i requires 0 <= i < |f0Raw| =>
      if rms[i] > EnergyGate && conf[i] > ConfidenceGate then Voiced(f0Raw[i]) else Unvoiced)
  }

  // ---------------------------------------------------------------------------
  // Jump limiter

  /** The limiter's treatment of frame `cur` given its already-limited
      predecessor `prev`: a jump above 600 cents is halved when the ratio lies
      in (1.9, 2.1), doubled when it lies in (0.45, 0.55), and otherwise
      clamped to the predecessor. */
  function LimitStep(prev: Frame, cur: Frame): (r: Frame)
    ensures r.Voiced? == cur.Voiced?
  {
    if cur.Unvoiced? || prev.Unvoiced? || !CentsAbove(cur.hz, prev.hz, 2) then cur
    else if prev.hz != 0.0 && 1.9 < cur.hz / prev.hz < 2.1 then Voiced(cur.hz / 2.0)
    else if prev.hz != 0.0 && 0.45 < cur.hz / prev.hz < 0.55 then Voiced(cur.hz * 2.0)
    else prev
  }

  /** The limiter run left to right over the whole series. */
  function Limited(s: seq<Frame>): (r: seq<Frame>)
    ensures |r| == |s|
    decreases |s|
  {
    if |s| <= 1 then s
    else
      var p := Limited(s[..|s| - 1]);
      p + [LimitStep(p[|s| - 2], s[|s| - 1])]
  }

  /** The limiter compares each frame with its ALREADY-LIMITED predecessor. */
  lemma {:induction false} LimitedAt(s: seq<Frame>, k: nat)
    requires k < |s|
    ensures k == 0 ==> Limited(s)[k] == s[k]
    ensures k > 0 ==> Limited(s)[k] == LimitStep(Limited(s)[k - 1], s[k])
    decreases |s|
  {
    if |s| > 1 && k < |s| - 1 {
      var t := s[..|s| - 1];
      LimitedAt(t, k);
      assert t[k] == s[k];
    }
  }

  /** One iteration of the limiter loop: the new value of a frame from its
      already-limited predecessor. */
  method LimitFrame(prev: Frame, cur: Frame) returns (r: Frame)
    ensures r == LimitStep(prev, cur)
  {
    r := cur;
    if cur.Unvoiced? || prev.Unvoiced? {
      return;
    }
    if CentsAbove(cur.hz, prev.hz, 2) {
      if prev.hz != 0.0 && 1.9 < cur.hz / prev.hz < 2.1 {
        r := Voiced(cur.hz / 2.0);
      } else if prev.hz != 0.0 && 0.45 < cur.hz / prev.hz < 0.55 {
        r := Voiced(cur.hz * 2.0);
      } else {
        r := prev;
      }
    }
  }

  /** Limiting frame i of the series whose frames before i are limited extends
      the limited prefix by one frame. */
  lemma LimitExtend(s: seq<Frame>, i: nat, before: seq<Frame>)
    requires 1 <= i < |s| && before == Limited(s[..i]) + s[i..]
    ensures before[i := LimitStep(before[i - 1], s[i])] == Limited(s[..i + 1]) + s[i + 1..]
  {
    assert s[..i + 1][..i] == s[..i];
    assert before[i - 1] == Limited(s[..i])[i - 1];
  }

  /** The in-place loop of the source: frame i is rewritten from f0[i - 1],
      which the loop has already rewritten. */
  method LimitJumps(f0: array<Frame>)
    modifies f0
    ensures f0[..] == Limited(old(f0[..]))
  {
    ghost var s := f0[..];
    var n := f0.Length;
    var i := 1;
    while i < n
      invariant 1 <= i
      invariant n > 0 ==> i <= n && f0[..] == Limited(s[..i]) + s[i..]
      invariant n == 0 ==> f0[..] == s
    {
      ghost var before := f0[..];
      assert f0[i] == before[i] == s[i];
      var r := LimitFrame(f0[i - 1], f0[i]);
      f0[i] := r;
      LimitExtend(s, i, before);
      i := i + 1;
    }
    assert n > 0 ==> s[..i] == s;
  }

  /** The limiter never changes voicing. */
  lemma LimitedKeepsVoicing(s: seq<Frame>, k: nat)
    requires k < |s|
    ensures Limited(s)[k].Voiced? == s[k].Voiced?
  {
    LimitedAt(s, k);
  }

  /** A frame is rewritten only when it and its limited predecessor are voiced
      and more than 600 cents apart. */
  lemma LimitedChangesOnlyJumps(s: seq<Frame>, k: nat)
    requires k < |s| && Limited(s)[k] != s[k]
    ensures k > 0 && s[k].Voiced? && Limited(s)[k - 1].Voiced?
    ensures CentsAbove(s[k].hz, Limited(s)[k - 1].hz, 2)
  {
    LimitedAt(s, k);
  }

  /** The three repairs bring the ratio to the predecessor into (0.95, 1.05),
      (0.9, 1.1) or exactly 1. */
  lemma RepairRatio(prev: real, cur: real)
    requires prev > 0.0 && cur > 0.0 && CentsAbove(cur, prev, 2)
    ensures var q := LimitStep(Voiced(prev), Voiced(cur)).hz / prev;
      || (1.9 < cur / prev < 2.1 && 0.95 < q < 1.05)
      || (0.45 < cur / prev < 0.55 && 0.9 < q < 1.1)
      || q == 1.0
  {
    var r := cur / prev;
    if 1.9 < r < 2.1 {
      assert (cur / 2.0) / prev == r / 2.0;
    } else if 0.45 < r < 0.55 {
      assert (cur * 2.0) / prev == r * 2.0;
    }
  }

  /** A ratio q in (0.9, 1.1) is within 600 cents. */
  lemma NearOneWithinTritone(a: real, b: real)
    requires a > 0.0 && b > 0.0 && 0.9 < a / b < 1.1
    ensures !CentsAbove(a, b, 2)
  {
    var q := a / b;
    PowTwo(q);
    assert q * q < 1.21 by {
      assert q * q < q * 1.1;
    }
    assert q * q > 0.81 by {
      assert q * q > q * 0.9;
    }
  }

  /** After the limiter, each voiced frame is within 600 cents of its voiced
      predecessor. */
  lemma LimitStepWithinTritone(prev: real, cur: real)
    requires prev > 0.0 && cur > 0.0
    ensures var r := LimitStep(Voiced(prev), Voiced(cur)).hz; r > 0.0 && !CentsAbove(r, prev, 2)
  {
    if CentsAbove(cur, prev, 2) {
      RepairRatio(prev, cur);
      NearOneWithinTritone(LimitStep(Voiced(prev), Voiced(cur)).hz, prev);
    }
  }

  /** The limiter keeps frequencies positive. */
  lemma {:induction false} LimitedKeepsPositive(s: seq<Frame>)
    requires PositiveWhereVoiced(s)
    ensures PositiveWhereVoiced(Limited(s))
    decreases |s|
  {
    if |s| > 1 {
      var t := s[..|s| - 1];
      LimitedKeepsPositive(t);
      var p := Limited(t);
      var last := s[|s| - 1];
      if last.Voiced? && p[|s| - 2].Voiced? {
        LimitStepWithinTritone(p[|s| - 2].hz, last.hz);
      }
    }
  }

  /** For positive input, every adjacent voiced pair of the limited series is
      within 600 cents. */
  lemma LimitedWithinTritone(s: seq<Frame>, k: nat)
    requires PositiveWhereVoiced(s) && 0 < k < |s|
    requires Limited(s)[k - 1].Voiced? && Limited(s)[k].Voiced?
    ensures !CentsAbove(Limited(s)[k].hz, Limited(s)[k - 1].hz, 2)
  {
    LimitedAt(s, k);
    LimitedKeepsPositive(s);
    LimitedKeepsVoicing(s, k);
    LimitStepWithinTritone(Limited(s)[k - 1].hz, s[k].hz);
  }

  /** Because the predecessor is the limited one, a wrong frame drags its
      successor along: 300 is clamped to 100, and then 290 (close to the
      original 300) is too far from 100 and is clamped as well. */
  lemma LimiterUsesLimitedPredecessor()
    ensures Limited([Voiced(100.0), Voiced(300.0), Voiced(290.0)])
         == [Voiced(100.0), Voiced(100.0), Voiced(100.0)]
    ensures LimitStep(Voiced(300.0), Voiced(290.0)) == Voiced(290.0)
  {
    var s := [Voiced(100.0), Voiced(300.0), Voiced(290.0)];
    PowTwo(3.0);
    PowTwo(2.9);
    PowTwo(290.0 / 300.0);
    assert s[..2] == [Voiced(100.0), Voiced(300.0)];
    assert s[..2][..1] == [Voiced(100.0)];
  }

  // ---------------------------------------------------------------------------
  // Run-wise smoothing

  /** `savgol_filter(x, 9, 3)` stays abstract; all the model needs is that it
      returns as many values as it is given. */
  ghost predicate KeepsLength(savgol: seq<real> -> seq<real>)
  {
    forall v :: |savgol(v)| == |v|
  }

  /** The values of the all-voiced frames [i, j). */
  function RunValues(s: seq<Frame>, i: nat, j: nat): (v: seq<real>)
    requires i <= j <= |s| && forall m :: i <= m < j ==> s[m].Voiced?
    ensures |v| == j - i && forall m :: 0 <= m < j - i ==> v[m] == s[i + m].hz
  {
    seq(j - i, m requires 0 <= m < j - i => s[i + m].hz)
  }

  /** Frame k after smoothing: unvoiced frames stay unvoiced; a voiced frame
      takes the filtered value of its own run when the run has at least 9
      frames, and the run's median otherwise. */
  function SmoothedAt(s: seq<Frame>, k: nat, savgol: seq<real> -> seq<real>, median: seq<real> -> real): Frame
    requires k < |s| && KeepsLength(savgol)
  {
    if s[k].Unvoiced? then Unvoiced
    else
      var i, j := RunStart(s, k), RunEnd(s, k);
      var vals := RunValues(s, i, j);
      if j - i >= SmoothWindow then Voiced(savgol(vals)[k - i]) else Voiced(median(vals))
  }

  /** The reference definition of the smoothing pass. */
  function Smoothed(s: seq<Frame>, savgol: seq<real> -> seq<real>, median: seq<real> -> real): (r: seq<Frame>)
    requires KeepsLength(savgol)
    ensures |r| == |s|
  {
    seq(|s|, k requires 0 <= k < |s| => SmoothedAt(s, k, savgol, median))
  }

  /** The run [i, j) written as the source writes it: the filtered values of a
      long run, or its median broadcast over a short one. */
  function RunOutput(s: seq<Frame>, i: nat, j: nat, savgol: seq<real> -> seq<real>,
                     median: seq<real> -> real): (w: seq<Frame>)
    requires i <= j <= |s| && forall m :: i <= m < j ==> s[m].Voiced?
    requires KeepsLength(savgol)
    ensures |w| == j - i
  {
    var vals := RunValues(s, i, j);
    if j - i >= SmoothWindow then seq(j - i, m requires 0 <= m < j - i => Voiced(savgol(vals)[m]))
    else seq(j - i, m => Voiced(median(vals)))
  }

  /** Every frame of a maximal voiced run is smoothed to the run's output. */
  lemma RunSmoothed(s: seq<Frame>, savgol: seq<real> -> seq<real>, median: seq<real> -> real,
                    i: nat, j: nat)
    requires KeepsLength(savgol)
    requires IsRun(s, i, j) && s[i].Voiced?
    ensures forall m :: i <= m < j ==> SmoothedAt(s, m, savgol, median) == RunOutput(s, i, j, savgol, median)[m - i]
  {
    forall m | i <= m < j ensures SmoothedAt(s, m, savgol, median) == RunOutput(s, i, j, savgol, median)[m - i] {
      SmoothedAtRun(s, savgol, median, i, j, m);
    }
  }

  /** From a voiced frame i that opens a run, walk to the end of that run. */
  method VoicedRunEnd(f0: seq<Frame>, i: nat) returns (j: nat)
    requires i < |f0| && f0[i].Voiced? && (i == 0 || f0[i - 1].Unvoiced?)
    ensures IsRun(f0, i, j)
  {
    j := i;
    while j < |f0| && f0[j].Voiced?
      invariant i <= j <= |f0|
      invariant forall m :: i <= m < j ==> f0[m].Voiced?
    {
      j := j + 1;
    }
  }

  /** `f0_smooth[seg] = w` for the run starting at frame i. */
  method WriteRun(out: array<Frame>, i: nat, w: seq<Frame>)
    requires i + |w| <= out.Length
    modifies out
    ensures forall m :: 0 <= m < out.Length ==> out[m] == if i <= m < i + |w| then w[m - i] else old(out[m])
  {
    var k := 0;
    while k < |w|
      invariant 0 <= k <= |w|
      invariant forall m :: 0 <= m < out.Length ==> out[m] == if i <= m < i + k then w[m - i] else old(out[m])
    {
      out[i + k] := w[k];
      k := k + 1;
    }
  }

  /** The smoothing loop: walk the maximal voiced runs (the source's
      `np.split` of the voiced indices at every gap) and write each run. */
  method SmoothRuns(f0: seq<Frame>, savgol: seq<real> -> seq<real>, median: seq<real> -> real)
    returns (r: seq<Frame>)
    requires KeepsLength(savgol)
    ensures r == Smoothed(f0, savgol, median)
  {
    var n := |f0|;
    var out := new Frame[n](k requires 0 <= k < n => f0[k]);
    var i := 0;
    while i < n
      invariant 0 <= i <= n
      invariant 0 < i < n && f0[i].Voiced? ==> f0[i - 1].Unvoiced?
      invariant forall k :: 0 <= k < i ==> out[k] == SmoothedAt(f0, k, savgol, median)
      invariant forall k :: i <= k < n ==> out[k] == f0[k]
    {
      if f0[i].Unvoiced? {
        i := i + 1;
      } else {
        var j := VoicedRunEnd(f0, i);
        RunSmoothed(f0, savgol, median, i, j);
        WriteRun(out, i, RunOutput(f0, i, j, savgol, median));
        i := j;
      }
    }
    r := out[..];
  }

  lemma SmoothedAtRun(s: seq<Frame>, savgol: seq<real> -> seq<real>, median: seq<real> -> real,
                      i: nat, j: nat, k: nat)
    requires KeepsLength(savgol)
    requires IsRun(s, i, j) && s[i].Voiced? && i <= k < j
    ensures SmoothedAt(s, k, savgol, median) ==
      if j - i >= SmoothWindow then Voiced(savgol(RunValues(s, i, j))[k - i])
      else Voiced(median(RunValues(s, i, j)))
  {
    RunBounds(s, i, j, k);
  }

  /** Smoothing keeps every frame's voicing. */
  lemma SmoothedKeepsVoicing(s: seq<Frame>, savgol: seq<real> -> seq<real>, median: seq<real> -> real, k: nat)
    requires KeepsLength(savgol) && k < |s|
    ensures Smoothed(s, savgol, median)[k].Voiced? == s[k].Voiced?
  {
  }

  /** A run shorter than the window becomes its median, every frame of it; a
      longer run takes the filter's output position by position. */
  lemma SmoothedRun(s: seq<Frame>, savgol: seq<real> -> seq<real>, median: seq<real> -> real,
                    i: nat, j: nat, k: nat)
    requires KeepsLength(savgol)
    requires IsRun(s, i, j) && s[i].Voiced? && i <= k < j
    ensures j - i < SmoothWindow ==> Smoothed(s, savgol, median)[k] == Voiced(median(RunValues(s, i, j)))
    ensures j - i >= SmoothWindow ==> Smoothed(s, savgol, median)[k] == Voiced(savgol(RunValues(s, i, j))[k - i])
  {
    SmoothedAtRun(s, savgol, median, i, j, k);
  }

  /** Smoothing never crosses a gap: with the same voicing, two series that
      agree on a voiced run are smoothed alike on that run, whatever the other
      runs hold. */
  lemma SmoothingIsRunLocal(s: seq<Frame>, t: seq<Frame>, savgol: seq<real> -> seq<real>,
                            median: seq<real> -> real, i: nat, j: nat, k: nat)
    requires KeepsLength(savgol)
    requires |s| == |t| && forall m :: 0 <= m < |s| ==> s[m].Voiced? == t[m].Voiced?
    requires IsRun(s, i, j) && s[i].Voiced? && i <= k < j
    requires forall m :: i <= m < j ==> s[m] == t[m]
    ensures Smoothed(s, savgol, median)[k] == Smoothed(t, savgol, median)[k]
  {
    RunBounds(s, i, j, k);
    RunsFollowMask(s, t, k);
    assert RunValues(s, i, j) == RunValues(t, i, j);
  }

  // ---------------------------------------------------------------------------
  // pYIN veto

  /** Frame i after the veto: it is nulled when both contours are voiced, they
      are more than 120 cents apart, and the confidence is below 0.75. */
  function VetoAt(smooth: Frame, pyin: Frame, conf: real): Frame
  {
    if smooth.Unvoiced? || pyin.Unvoiced? then smooth
    else if CentsAbove(smooth.hz, pyin.hz, 10) && conf < VetoConfidence then Unvoiced
    else smooth
  }

  function Vetoed(s: seq<Frame>, pyin: seq<Frame>, conf: seq<real>): (r: seq<Frame>)
    requires |pyin| == |s| == |conf|
    ensures |r| == |s|
  {
    seq(|s|, i requires 0 <= i < |s| => VetoAt(s[i], pyin[i], conf[i]))
  }

  /** The veto loop, writing NaN into a copy of the smoothed contour. */
  method PyinVeto(smooth: seq<Frame>, pyin: seq<Frame>, conf: seq<real>) returns (r: seq<Frame>)
    requires |pyin| == |smooth| == |conf|
    ensures r == Vetoed(smooth, pyin, conf)
  {
    var n := |smooth|;
    var out := new Frame[n](i requires 0 <= i < n => smooth[i]);
    var i := 0;
    while i < n
      invariant 0 <= i <= n
      invariant forall k :: 0 <= k < i ==> out[k] == VetoAt(smooth[k], pyin[k], conf[k])
      invariant forall k :: i <= k < n ==> out[k] == smooth[k]
    {
      if smooth[i].Voiced? && pyin[i].Voiced? {
        if CentsAbove(smooth[i].hz, pyin[i].hz, 10) && conf[i] < VetoConfidence {
          out[i] := Unvoiced;
        }
      }
      i := i + 1;
    }
    r := out[..];
  }

  /** The veto never alters a value: a frame either stays as it was or a
      voiced frame becomes unvoiced, and the latter happens exactly when pYIN
      is voiced there, disagrees by more than 120 cents and the confidence is
      below 0.75. */
  lemma VetoOnlyNulls(s: seq<Frame>, pyin: seq<Frame>, conf: seq<real>, i: nat)
    requires |pyin| == |s| == |conf| && i < |s|
    ensures var r := Vetoed(s, pyin, conf);
      && (r[i] == s[i] || (s[i].Voiced? && r[i].Unvoiced?))
      && (s[i].Voiced? && r[i].Unvoiced? <==>
            s[i].Voiced? && pyin[i].Voiced? && CentsAbove(s[i].hz, pyin[i].hz, 10) && conf[i] < VetoConfidence)
  {
  }

  // ---------------------------------------------------------------------------
  // The passes in sequence

  /** extract_pitch_vocal after its external calls: truncate every series to the
      common length, gate, limit in place, smooth, veto. Returns the final
      contour, the truncated confidence and the truncated pYIN contour, which
      the source keeps in its result for debugging. */
  method ExtractPitchVocal(f0Raw: seq<real>, conf: seq<real>, rms: seq<real>, pyin: seq<Frame>,
                           savgol: seq<real> -> seq<real>, median: seq<real> -> real)
    returns (pitch: seq<Frame>, confidence: seq<real>, pitchPyin: seq<Frame>)
    requires |conf| == |f0Raw|
    requires KeepsLength(savgol)
    ensures var n := CommonLength(|f0Raw|, |rms|, |pyin|);
      && |pitch| == n && confidence == conf[..n] && pitchPyin == pyin[..n]
      && pitch == Vetoed(Smoothed(Limited(Gate(f0Raw[..n], conf[..n], rms[..n])), savgol, median),
                         pyin[..n], conf[..n])
  {
    var n := CommonLength(|f0Raw|, |rms|, |pyin|);
    var raw, c, e, py := f0Raw[..n], conf[..n], rms[..n], pyin[..n];
    var gated := Gate(raw, c, e);
    var f0 := new Frame[n](k requires 0 <= k < n => gated[k]);
    assert f0[..] == gated;
    LimitJumps(f0);
    var smooth := SmoothRuns(f0[..], savgol, median);
    pitch := PyinVeto(smooth, py, c);
    confidence := c;
    pitchPyin := py;
  }

  /** A frame voiced in the final contour passed the energy and confidence
      gate: no pass after the gate turns an unvoiced frame voiced. */
  lemma FinalVoicedPassedGate(f0Raw: seq<real>, conf: seq<real>, rms: seq<real>, pyin: seq<Frame>,
                              savgol: seq<real> -> seq<real>, median: seq<real> -> real, k: nat)
    requires |conf| == |f0Raw| && KeepsLength(savgol)
    requires k < CommonLength(|f0Raw|, |rms|, |pyin|)
    requires var n := CommonLength(|f0Raw|, |rms|, |pyin|);
      Vetoed(Smoothed(Limited(Gate(f0Raw[..n], conf[..n], rms[..n])), savgol, median), pyin[..n], conf[..n])[k].Voiced?
    ensures rms[k] > EnergyGate && conf[k] > ConfidenceGate
  {
    var n := CommonLength(|f0Raw|, |rms|, |pyin|);
    var g := Gate(f0Raw[..n], conf[..n], rms[..n]);
    LimitedKeepsVoicing(g, k);
  }
}
