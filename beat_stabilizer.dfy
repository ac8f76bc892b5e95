/**
 * Beat-wise pitch stabilisation (src/postprocess.py, enforce_beatwise_pitch).
 *
 * Each beat interval [beats[k], beats[k+1]) selects the frames whose time lies
 * in it. An interval with too few frames is skipped. An interval with voiced
 * frames is either snapped to the median of its voiced values (when their
 * spread in cents is small) or copied from the input. An all-unvoiced interval
 * is filled with the last pitch when the pitch resumes within 200 cents of it.
 * Statistics read the INPUT series; writes go to a copy.
 */
module BeatStabilizer {
  import opened Frames

  /** The tuning of the pass (the source's defaults are max_flat_cents = 80 and
      min_frames = 5) and its two statistics, which stay abstract:
      `median` is numpy's median of the voiced values, and `centsSpread(v)` is
      np.std(1200·log2(v / median(v))). */
  datatype Params = Params(
    maxFlatCents: real,
    minFrames: int,
    median: seq<real> -> real,
    centsSpread: seq<real> -> real)

  /** The state the loop carries: the output series and `last_pitch`
      (numpy NaN until an interval with voiced frames has been seen). */
  datatype BeatState = BeatState(out: seq<Frame>, last: Frame)

  /** Indices m >= k, increasing, with start <= times[m] < end. */
  function FramesFrom(times: seq<real>, start: real, end: real, k: nat): (idx: seq<nat>)
    requires k <= |times|
    ensures forall q :: 0 <= q < |idx| ==> k <= idx[q] < |times|
    decreases |times| - k
  {
    if k == |times| then []
    else if start <= times[k] < end then [k] + FramesFrom(times, start, end, k + 1)
    else FramesFrom(times, start, end, k + 1)
  }

  /** FramesFrom lists exactly the frames from k on whose time lies in
      [start, end), in increasing order. */
  lemma {:induction false} FramesFromSpec(times: seq<real>, start: real, end: real, k: nat)
    requires k <= |times|
    ensures var idx := FramesFrom(times, start, end, k);
      forall m :: m in idx <==> k <= m < |times| && start <= times[m] < end
    ensures var idx := FramesFrom(times, start, end, k);
      forall q, q' :: 0 <= q < q' < |idx| ==> idx[q] < idx[q']
    decreases |times| - k
  {
    if k < |times| {
      FramesFromSpec(times, start, end, k + 1);
    }
  }

  /** `np.where((times >= start) & (times < end))[0]` for beat interval k. */
  function Idx(times: seq<real>, beats: seq<real>, k: nat): seq<nat>
    requires k + 1 < |beats|
  {
    FramesFrom(times, beats[k], beats[k + 1], 0)
  }

  /** `f0[idx]`. */
  function Gather(f0: seq<Frame>, idx: seq<nat>): (g: seq<Frame>)
    requires forall q :: 0 <= q < |idx| ==> idx[q] < |f0|
    ensures |g| == |idx| && forall q :: 0 <= q < |idx| ==> g[q] == f0[idx[q]]
  {
    seq(|idx|, q requires 0 <= q < |idx| => f0[idx[q]])
  }

  /** The voiced values of interval k of the input. */
  function ValidIn(times: seq<real>, f0: seq<Frame>, beats: seq<real>, k: nat): seq<real>
    requires |times| == |f0| && k + 1 < |beats|
  {
    VoicedValues(Gather(f0, Idx(times, beats, k)))
  }

  /** `out[idx] = v`. */
  function Fill(out: seq<Frame>, idx: seq<nat>, v: Frame): (r: seq<Frame>)
    ensures |r| == |out|
  {
    seq(|out|, m requires 0 <= m < |out| => if m in idx then v else out[m])
  }

  /** `out[idx] = f0[idx]`. */
  function CopyFrom(out: seq<Frame>, f0: seq<Frame>, idx: seq<nat>): (r: seq<Frame>)
    requires |f0| == |out|
    ensures |r| == |out|
  {
    seq(|out|, m requires 0 <= m < |out| => if m in idx then f0[m] else out[m])
  }

  /** The source's look-ahead: f0[j + 1] for the first j of idx (in order)
      whose successor exists and is voiced, or Unvoiced when there is none. */
  function LookAhead(f0: seq<Frame>, idx: seq<nat>): (r: Frame)
    ensures r.Voiced? ==> exists q :: 0 <= q < |idx| && idx[q] + 1 < |f0| && f0[idx[q] + 1] == r
                                && forall q' :: 0 <= q' < q ==> !(idx[q'] + 1 < |f0| && f0[idx[q'] + 1].Voiced?)
    ensures r.Unvoiced? ==> forall q :: 0 <= q < |idx| && idx[q] + 1 < |f0| ==> f0[idx[q] + 1].Unvoiced?
  {
    if idx == [] then Unvoiced
    else if idx[0] + 1 < |f0| && f0[idx[0] + 1].Voiced? then f0[idx[0] + 1]
    else
      assert forall q :: 0 < q < |idx| ==> idx[1..][q - 1] == idx[q];
      LookAhead(f0, idx[1..])
  }

  /** The pitch resumes after a silent interval within 200 cents of `last`. */
  predicate Resumes(f0: seq<Frame>, idx: seq<nat>, last: real)
  {
    var next := LookAhead(f0, idx);
    next.Voiced? && CentsBelow(next.hz, last, 6)
  }

  /** One iteration of the beat loop, for interval k. */
  function Step(times: seq<real>, f0: seq<Frame>, beats: seq<real>, k: nat, p: Params, st: BeatState): (r: BeatState)
    requires |times| == |f0| == |st.out| && k + 1 < |beats|
    ensures |r.out| == |f0|
  {
    var idx := Idx(times, beats, k);
    if |idx| < p.minFrames then st
    else
      var valid := VoicedValues(Gather(f0, idx));
      if |valid| > 0 then
        var center := p.median(valid);
        if p.centsSpread(valid) < p.maxFlatCents then BeatState(Fill(st.out, idx, Voiced(center)), Voiced(center))
        else BeatState(CopyFrom(st.out, f0, idx), Voiced(p.median(valid)))
      else if st.last.Voiced? && Resumes(f0, idx, st.last.hz) then BeatState(Fill(st.out, idx, st.last), st.last)
      else st
  }

  /** The number of beat intervals, `len(beat_times) - 1` iterations. */
  function IntervalCount(beats: seq<real>): nat
  {
    if |beats| == 0 then 0 else |beats| - 1
  }

  /** The state after the first `count` beat intervals. */
  function StabilizePrefix(times: seq<real>, f0: seq<Frame>, beats: seq<real>, p: Params, count: nat): (st: BeatState)
    requires |times| == |f0| && count <= IntervalCount(beats)
    ensures |st.out| == |f0|
    decreases count
  {
    if count == 0 then BeatState(f0, Unvoiced)
    else Step(times, f0, beats, count - 1, p, StabilizePrefix(times, f0, beats, p, count - 1))
  }

  /** The reference definition of enforce_beatwise_pitch. */
  function Stabilized(times: seq<real>, f0: seq<Frame>, beats: seq<real>, p: Params): (r: seq<Frame>)
    requires |times| == |f0|
    ensures |r| == |f0|
  {
    StabilizePrefix(times, f0, beats, p, IntervalCount(beats)).out
  }

  /** `f0_out[idx] = v`, one index at a time. */
  method WriteAll(out: array<Frame>, idx: seq<nat>, v: Frame)
    requires forall q :: 0 <= q < |idx| ==> idx[q] < out.Length
    modifies out
    ensures out[..] == Fill(old(out[..]), idx, v)
  {
    var q := 0;
    while q < |idx|
      invariant 0 <= q <= |idx|
      invariant forall m :: 0 <= m < out.Length ==> out[m] == if m in idx[..q] then v else old(out[m])
    {
      assert idx[..q + 1] == idx[..q] + [idx[q]];
      out[idx[q]] := v;
      q := q + 1;
    }
    assert idx[..q] == idx;
  }

  /** `f0_out[idx] = f0[idx]`, one index at a time. */
  method CopyBack(out: array<Frame>, f0: seq<Frame>, idx: seq<nat>)
    requires |f0| == out.Length
    requires forall q :: 0 <= q < |idx| ==> idx[q] < out.Length
    modifies out
    ensures out[..] == CopyFrom(old(out[..]), f0, idx)
  {
    var q := 0;
    while q < |idx|
      invariant 0 <= q <= |idx|
      invariant forall m :: 0 <= m < out.Length ==> out[m] == if m in idx[..q] then f0[m] else old(out[m])
    {
      assert idx[..q + 1] == idx[..q] + [idx[q]];
      out[idx[q]] := f0[idx[q]];
      q := q + 1;
    }
    assert idx[..q] == idx;
  }

  /** The look-ahead loop with its early `break`. */
  method FindResume(f0: seq<Frame>, idx: seq<nat>) returns (next: Frame)
    ensures next == LookAhead(f0, idx)
  {
    next := Unvoiced;
    var q := 0;
    while q < |idx|
      invariant 0 <= q <= |idx|
      invariant LookAhead(f0, idx) == LookAhead(f0, idx[q..])
    {
      var j := idx[q];
      if j + 1 < |f0| && f0[j + 1].Voiced? {
        next := f0[j + 1];
        break;
      }
      assert idx[q..][1..] == idx[q + 1..];
      q := q + 1;
    }
  }

  /** The body of the beat loop for interval k: writes into `out` and returns
      the new `last_pitch`. */
  method StabilizeInterval(out: array<Frame>, last: Frame, times: seq<real>, f0: seq<Frame>,
                           beats: seq<real>, k: nat, p: Params)
    returns (newLast: Frame)
    requires |times| == |f0| == out.Length && k + 1 < |beats|
    modifies out
    ensures BeatState(out[..], newLast) == Step(times, f0, beats, k, p, BeatState(old(out[..]), last))
  {
    newLast := last;
    var idx := FramesFrom(times, beats[k], beats[k + 1], 0);
    if |idx| >= p.minFrames {
      var segment := Gather(f0, idx);
      var valid := VoicedValues(segment);
      if |valid| > 0 {
        var center := p.median(valid);
        if p.centsSpread(valid) < p.maxFlatCents {
          WriteAll(out, idx, Voiced(center));
          newLast := Voiced(center);
        } else {
          CopyBack(out, f0, idx);
          newLast := Voiced(p.median(valid));
        }
      } else if last.Voiced? {
        var next := FindResume(f0, idx);
        if next.Voiced? && CentsBelow(next.hz, last.hz, 6) {
          WriteAll(out, idx, last);
        }
      }
    }
  }

  /** enforce_beatwise_pitch: walk the beat intervals in order, writing into a
      copy of f0 and carrying `last_pitch`. */
  method EnforceBeatwisePitch(times: seq<real>, f0: seq<Frame>, beats: seq<real>, p: Params)
    returns (r: seq<Frame>)
    requires |times| == |f0|
    ensures r == Stabilized(times, f0, beats, p)
  {
    var out := new Frame[|f0|](m requires 0 <= m < |f0| => f0[m]);
    var last := Unvoiced;
    var i := 0;
    while i < |beats| - 1
      invariant 0 <= i <= IntervalCount(beats)
      invariant out.Length == |f0|
      invariant BeatState(out[..], last) == StabilizePrefix(times, f0, beats, p, i)
    {
      last := StabilizeInterval(out, last, times, f0, beats, i, p);
      i := i + 1;
    }
    r := out[..];
  }

  /** Beat timestamps in non-decreasing order, as the beat tracker delivers them. */
  predicate Sorted(beats: seq<real>)
  {
    forall a, b :: 0 <= a < b < |beats| ==> beats[a] <= beats[b]
  }

  /** Intervals lo..hi-1 that do not contain frame m leave it as it was. */
  lemma {:induction false} PrefixLeaves(times: seq<real>, f0: seq<Frame>, beats: seq<real>, p: Params,
                                        lo: nat, hi: nat, m: nat)
    requires |times| == |f0| && lo <= hi <= IntervalCount(beats) && m < |f0|
    requires forall k :: lo <= k < hi ==> m !in Idx(times, beats, k)
    ensures StabilizePrefix(times, f0, beats, p, hi).out[m] == StabilizePrefix(times, f0, beats, p, lo).out[m]
    decreases hi
  {
    if lo < hi {
      PrefixLeaves(times, f0, beats, p, lo, hi - 1, m);
    }
  }

  /** A frame whose time lies in no beat interval is returned unchanged. */
  lemma FramesOutsideBeatsUnchanged(times: seq<real>, f0: seq<Frame>, beats: seq<real>, p: Params, m: nat)
    requires |times| == |f0| && m < |f0|
    requires forall k :: 0 <= k < |beats| - 1 ==> !(beats[k] <= times[m] < beats[k + 1])
    ensures Stabilized(times, f0, beats, p)[m] == f0[m]
  {
    forall k | 0 <= k < IntervalCount(beats) ensures m !in Idx(times, beats, k) {
      FramesFromSpec(times, beats[k], beats[k + 1], 0);
    }
    PrefixLeaves(times, f0, beats, p, 0, IntervalCount(beats), m);
  }

  /** With beats sorted, a frame of interval k lies in no other interval. */
  lemma OtherIntervalMisses(times: seq<real>, beats: seq<real>, k: nat, a: nat, m: nat)
    requires Sorted(beats) && k + 1 < |beats| && a + 1 < |beats| && a != k && m < |times|
    requires beats[k] <= times[m] < beats[k + 1]
    ensures m !in Idx(times, beats, a)
  {
    FramesFromSpec(times, beats[a], beats[a + 1], 0);
    if a < k {
      assert beats[a + 1] <= beats[k];
    } else {
      assert beats[k + 1] <= beats[a];
    }
  }

  /** What one iteration does to a frame of its own interval. */
  lemma StepOutcome(times: seq<real>, f0: seq<Frame>, beats: seq<real>, k: nat, p: Params, st: BeatState, m: nat)
    requires |times| == |f0| == |st.out| && k + 1 < |beats| && m < |f0|
    requires m in Idx(times, beats, k)
    ensures
      var idx := Idx(times, beats, k);
      var valid := ValidIn(times, f0, beats, k);
      Step(times, f0, beats, k, p, st).out[m] ==
        if |idx| < p.minFrames then st.out[m]
        else if |valid| > 0 then
          (if p.centsSpread(valid) < p.maxFlatCents then Voiced(p.median(valid)) else f0[m])
        else if st.last.Voiced? && Resumes(f0, idx, st.last.hz) then st.last
        else st.out[m]
  {
  }

  /** What happens to a frame of beat interval k (beats sorted, so intervals are
      disjoint): a skipped interval leaves it unchanged; an interval with voiced
      frames and a small cents spread sets it, voiced or not, to the median of
      the voiced values; an expressive interval keeps the input; an all-unvoiced
      interval takes the last pitch when the pitch resumes within 200 cents of
      it, and stays as it was otherwise. */
  lemma IntervalOutcome(times: seq<real>, f0: seq<Frame>, beats: seq<real>, p: Params, k: nat, m: nat)
    requires |times| == |f0| && Sorted(beats) && k + 1 < |beats| && m < |f0|
    requires beats[k] <= times[m] < beats[k + 1]
    ensures
      var idx := Idx(times, beats, k);
      var valid := ValidIn(times, f0, beats, k);
      var last := StabilizePrefix(times, f0, beats, p, k).last;
      Stabilized(times, f0, beats, p)[m] ==
        if |idx| < p.minFrames then f0[m]
        else if |valid| > 0 then
          (if p.centsSpread(valid) < p.maxFlatCents then Voiced(p.median(valid)) else f0[m])
        else if last.Voiced? && Resumes(f0, idx, last.hz) then last
        else f0[m]
  {
    FramesFromSpec(times, beats[k], beats[k + 1], 0);
    forall a | 0 <= a < k ensures m !in Idx(times, beats, a) {
      OtherIntervalMisses(times, beats, k, a, m);
    }
    PrefixLeaves(times, f0, beats, p, 0, k, m);
    forall a | k + 1 <= a < IntervalCount(beats) ensures m !in Idx(times, beats, a) {
      OtherIntervalMisses(times, beats, k, a, m);
    }
    PrefixLeaves(times, f0, beats, p, k + 1, IntervalCount(beats), m);
    var st := StabilizePrefix(times, f0, beats, p, k);
    StepOutcome(times, f0, beats, k, p, st, m);
    assert StabilizePrefix(times, f0, beats, p, k + 1) == Step(times, f0, beats, k, p, st);
  }

  /** With frame times in order, the frames of an interval are consecutive. */
  lemma IntervalIsConsecutive(times: seq<real>, start: real, end: real, q: nat)
    requires Sorted(times)
    requires q + 1 < |FramesFrom(times, start, end, 0)|
    ensures var idx := FramesFrom(times, start, end, 0); idx[q + 1] == idx[q] + 1
  {
    var idx := FramesFrom(times, start, end, 0);
    FramesFromSpec(times, start, end, 0);
    assert idx[q] in idx && idx[q + 1] in idx;
    var m := idx[q] + 1;
    assert m <= idx[q + 1];
    assert times[idx[q]] <= times[m] <= times[idx[q + 1]];
  }

  /** Over consecutive silent frames the look-ahead can only find the frame
      just after the last of them. */
  lemma {:induction false} LookAheadPastRun(f0: seq<Frame>, idx: seq<nat>)
    requires |idx| > 0 && forall q :: 0 <= q < |idx| ==> idx[q] < |f0| && f0[idx[q]].Unvoiced?
    requires forall q :: 0 <= q < |idx| - 1 ==> idx[q + 1] == idx[q] + 1
    ensures var b := idx[|idx| - 1] + 1; LookAhead(f0, idx) == if b < |f0| then f0[b] else Unvoiced
  {
    if |idx| > 1 {
      assert idx[0 + 1] == idx[0] + 1;
      assert f0[idx[0] + 1] == f0[idx[1]];
      LookAheadPastRun(f0, idx[1..]);
    }
  }

  /** With frame times in order, the look-ahead of an all-unvoiced interval is
      the frame just after the interval, or unvoiced when there is none. */
  lemma SilentLookAhead(times: seq<real>, f0: seq<Frame>, beats: seq<real>, k: nat)
    requires |times| == |f0| && Sorted(times) && k + 1 < |beats|
    requires |Idx(times, beats, k)| > 0
    requires forall q :: 0 <= q < |Idx(times, beats, k)| ==> f0[Idx(times, beats, k)[q]].Unvoiced?
    ensures var idx := Idx(times, beats, k); var b := idx[|idx| - 1] + 1;
      LookAhead(f0, idx) == if b < |f0| then f0[b] else Unvoiced
  {
    var idx := Idx(times, beats, k);
    forall q | 0 <= q < |idx| - 1 ensures idx[q + 1] == idx[q] + 1 {
      IntervalIsConsecutive(times, beats[k], beats[k + 1], q);
    }
    LookAheadPastRun(f0, idx);
  }

  /** The silent case of IntervalOutcome, with frame times in order: a frame of
      an all-unvoiced interval that is not skipped takes last_pitch exactly when
      last_pitch is set and the frame just after the interval is voiced within
      200 cents of it; otherwise it stays as it was. */
  lemma SilentIntervalOutcome(times: seq<real>, f0: seq<Frame>, beats: seq<real>, p: Params, k: nat, m: nat)
    requires |times| == |f0| && Sorted(times) && Sorted(beats) && k + 1 < |beats| && m < |f0|
    requires beats[k] <= times[m] < beats[k + 1]
    requires |Idx(times, beats, k)| >= p.minFrames && |ValidIn(times, f0, beats, k)| == 0
    ensures |Idx(times, beats, k)| > 0
    ensures
      var idx := Idx(times, beats, k);
      var b := idx[|idx| - 1] + 1;
      var last := StabilizePrefix(times, f0, beats, p, k).last;
      Stabilized(times, f0, beats, p)[m] ==
        if last.Voiced? && b < |f0| && f0[b].Voiced? && CentsBelow(f0[b].hz, last.hz, 6) then last
        else f0[m]
  {
    var idx := Idx(times, beats, k);
    FramesFromSpec(times, beats[k], beats[k + 1], 0);
    assert m in idx;
    var g := Gather(f0, idx);
    assert forall q :: 0 <= q < |idx| ==> g[q] == f0[idx[q]];
    SilentLookAhead(times, f0, beats, k);
    IntervalOutcome(times, f0, beats, p, k, m);
  }

  /** Interval k is neither skipped nor silent: it sets `last_pitch`. */
  predicate Contributes(times: seq<real>, f0: seq<Frame>, beats: seq<real>, p: Params, k: nat)
    requires |times| == |f0| && k + 1 < |beats|
  {
    |Idx(times, beats, k)| >= p.minFrames && |ValidIn(times, f0, beats, k)| > 0
  }

  /** `last_pitch` after `count` intervals is unset exactly when no earlier
      interval contributed, and otherwise is the median of the voiced values of
      the most recent contributing interval, stable or expressive. */
  lemma {:induction false} LastPitchIsLatestMedian(times: seq<real>, f0: seq<Frame>, beats: seq<real>,
                                                   p: Params, count: nat)
    requires |times| == |f0| && count <= IntervalCount(beats)
    ensures var last := StabilizePrefix(times, f0, beats, p, count).last;
      && (last.Unvoiced? <==> forall a :: 0 <= a < count ==> !Contributes(times, f0, beats, p, a))
      && forall a :: 0 <= a < count && Contributes(times, f0, beats, p, a)
                     && (forall b :: a < b < count ==> !Contributes(times, f0, beats, p, b))
                     ==> last == Voiced(p.median(ValidIn(times, f0, beats, a)))
    decreases count
  {
    if count > 0 {
      var k := count - 1;
      LastPitchIsLatestMedian(times, f0, beats, p, k);
      var before := StabilizePrefix(times, f0, beats, p, k).last;
      var after := StabilizePrefix(times, f0, beats, p, count).last;
      if Contributes(times, f0, beats, p, k) {
        assert after == Voiced(p.median(ValidIn(times, f0, beats, k)));
      } else {
        assert after == before;
      }
    }
  }

  lemma FillKeepsPositive(out: seq<Frame>, idx: seq<nat>, v: Frame)
    requires PositiveWhereVoiced(out) && (v.Voiced? ==> v.hz > 0.0)
    ensures PositiveWhereVoiced(Fill(out, idx, v))
  {
  }

  lemma CopyKeepsPositive(out: seq<Frame>, f0: seq<Frame>, idx: seq<nat>)
    requires |f0| == |out| && PositiveWhereVoiced(out) && PositiveWhereVoiced(f0)
    ensures PositiveWhereVoiced(CopyFrom(out, f0, idx))
  {
  }

  /** Every voiced frequency of the output and `last_pitch`, once set, are positive. */
  predicate PositiveState(st: BeatState)
  {
    PositiveWhereVoiced(st.out) && (st.last.Voiced? ==> st.last.hz > 0.0)
  }

  /** One interval keeps frequencies and `last_pitch` positive. */
  lemma StepKeepsPositive(times: seq<real>, f0: seq<Frame>, beats: seq<real>, k: nat, p: Params, st: BeatState)
    requires |times| == |f0| == |st.out| && k + 1 < |beats|
    requires PositiveWhereVoiced(f0) && MedianBounded(p.median)
    requires PositiveState(st)
    ensures PositiveState(Step(times, f0, beats, k, p, st))
  {
    var idx := Idx(times, beats, k);
    if |idx| >= p.minFrames {
      var valid := VoicedValues(Gather(f0, idx));
      if |valid| > 0 {
        PositiveVoicedValues(Gather(f0, idx));
        PositiveMedian(p.median, valid);
        var center := p.median(valid);
        if p.centsSpread(valid) < p.maxFlatCents {
          FillKeepsPositive(st.out, idx, Voiced(center));
        } else {
          CopyKeepsPositive(st.out, f0, idx);
        }
      } else if st.last.Voiced? && Resumes(f0, idx, st.last.hz) {
        FillKeepsPositive(st.out, idx, st.last);
      }
    }
  }

  /** With a bounded median, stabilising a series of positive frequencies
      yields positive frequencies, and `last_pitch` is positive once set. */
  lemma {:induction false} StabilizeKeepsPositive(times: seq<real>, f0: seq<Frame>, beats: seq<real>,
                                                  p: Params, count: nat)
    requires |times| == |f0| && count <= IntervalCount(beats)
    requires PositiveWhereVoiced(f0) && MedianBounded(p.median)
    ensures PositiveState(StabilizePrefix(times, f0, beats, p, count))
    decreases count
  {
    if count > 0 {
      var st := StabilizePrefix(times, f0, beats, p, count - 1);
      StabilizeKeepsPositive(times, f0, beats, p, count - 1);
      StepKeepsPositive(times, f0, beats, count - 1, p, st);
      assert StabilizePrefix(times, f0, beats, p, count) == Step(times, f0, beats, count - 1, p, st);
    }
  }
}
