/**
 * Hold-bridging of short unvoiced gaps (src/postprocess.py, bridge_short_gaps).
 *
 * A maximal unvoiced run [i, j) is filled when it is short (j - i <= maxGap)
 * and has a frame on both sides (i > 0, j < n). It is filled by holding the
 * frame just before it, never by interpolating. Everything else is copied.
 */
module GapBridge {
  import opened Frames

  /** The default `max_gap_frames`. */
  const DefaultMaxGap: int := 12

  /** The fill test of the source, for the unvoiced run [i, j) of a series of length n. */
  predicate Fillable(i: nat, j: nat, n: nat, maxGap: int)
  {
    j - i <= maxGap && i > 0 && j < n
  }

  /** What bridging makes of frame k: a voiced frame stays; an unvoiced frame
      takes the frame before its run when the run passes the fill test. */
  function BridgedAt(s: seq<Frame>, maxGap: int, k: nat): Frame
    requires k < |s|
  {
    if s[k].Voiced? then s[k]
    else
      var i, j := RunStart(s, k), RunEnd(s, k);
      if Fillable(i, j, |s|, maxGap) then s[i - 1] else Unvoiced
  }

  /** The reference definition of bridge_short_gaps, frame by frame. */
  function Bridged(s: seq<Frame>, maxGap: int): (r: seq<Frame>)
    ensures |r| == |s|
  {
    seq(|s|, k requires 0 <= k < |s| => BridgedAt(s, maxGap, k))
  }

  /** The inner `while` of the source: from an unvoiced frame i that opens a
      run, walk to the end of that run. */
  method GapEnd(f0: seq<Frame>, isNaN: seq<bool>, i: nat) returns (j: nat)
    requires |isNaN| == |f0| && forall k :: 0 <= k < |f0| ==> isNaN[k] == f0[k].Unvoiced?
    requires i < |f0| && f0[i].Unvoiced? && (i == 0 || f0[i - 1].Voiced?)
    ensures IsRun(f0, i, j)
  {
    j := i;
    while j < |f0| && isNaN[j]
      invariant i <= j <= |f0|
      invariant forall m :: i <= m < j ==> f0[m].Unvoiced?
    {
      j := j + 1;
    }
  }

  /** `f0[i:j] = hold`. */
  method Hold(out: array<Frame>, i: nat, j: nat, hold: Frame)
    requires i <= j <= out.Length
    modifies out
    ensures forall m :: 0 <= m < out.Length ==> out[m] == if i <= m < j then hold else old(out[m])
  {
    var k := i;
    while k < j
      invariant i <= k <= j
      invariant forall m :: 0 <= m < out.Length ==> out[m] == if i <= m < k then hold else old(out[m])
    {
      out[k] := hold;
      k := k + 1;
    }
  }

  /** Every frame of a maximal unvoiced run is bridged the same way. */
  lemma GapFrames(s: seq<Frame>, maxGap: int, i: nat, j: nat)
    requires IsRun(s, i, j) && s[i].Unvoiced?
    ensures forall m :: i <= m < j ==>
      BridgedAt(s, maxGap, m) == if Fillable(i, j, |s|, maxGap) then s[i - 1] else Unvoiced
  {
    forall m | i <= m < j ensures RunStart(s, m) == i && RunEnd(s, m) == j {
      RunBounds(s, i, j, m);
    }
  }

  /** bridge_short_gaps: scan the copy for maximal unvoiced runs and fill the
      short interior ones with the preceding value. The input is never changed. */
  method BridgeShortGaps(f0: seq<Frame>, maxGap: int) returns (r: seq<Frame>)
    ensures r == Bridged(f0, maxGap)
  {
    var n := |f0|;
    var out := new Frame[n](k requires 0 <= k < n => f0[k]);
    var isNaN := seq(n, k requires 0 <= k < n => f0[k].Unvoiced?);
    var i := 0;
    while i < n
      invariant 0 <= i <= n
      invariant 0 < i < n && f0[i].Unvoiced? ==> f0[i - 1].Voiced?
      invariant forall k :: 0 <= k < i ==> out[k] == BridgedAt(f0, maxGap, k)
      invariant forall k :: i <= k < n ==> out[k] == f0[k]
    {
      if isNaN[i] {
        var j := GapEnd(f0, isNaN, i);
        GapFrames(f0, maxGap, i, j);
        var gap := j - i;
        if gap <= maxGap && i > 0 && j < n {
          assert out[i - 1] == f0[i - 1];
          Hold(out, i, j, out[i - 1]);
        }
        i := j;
      } else {
        i := i + 1;
      }
    }
    r := out[..];
  }

  /** A maximal unvoiced run is filled entirely with the voiced frame just before
      it exactly when it passes the fill test; otherwise it stays entirely unvoiced. */
  lemma BridgedRun(s: seq<Frame>, maxGap: int, i: nat, j: nat, k: nat)
    requires IsRun(s, i, j) && s[i].Unvoiced? && i <= k < j
    ensures Fillable(i, j, |s|, maxGap) ==> s[i - 1].Voiced? && Bridged(s, maxGap)[k] == s[i - 1]
    ensures !Fillable(i, j, |s|, maxGap) ==> Bridged(s, maxGap)[k] == Unvoiced
  {
    RunBounds(s, i, j, k);
  }

  /** Only unvoiced frames are ever written: voiced frames keep their value,
      and a frame that changes was unvoiced and becomes voiced. */
  lemma BridgeWritesOnlyGaps(s: seq<Frame>, maxGap: int, k: nat)
    requires k < |s|
    ensures s[k].Voiced? ==> Bridged(s, maxGap)[k] == s[k]
    ensures Bridged(s, maxGap)[k] != s[k] ==> s[k].Unvoiced? && Bridged(s, maxGap)[k].Voiced?
  {
  }

  /** After one pass every remaining unvoiced run fails the fill test. */
  lemma BridgedRunsFailTest(s: seq<Frame>, maxGap: int, k: nat)
    requires k < |s| && Bridged(s, maxGap)[k].Unvoiced?
    ensures var r := Bridged(s, maxGap); !Fillable(RunStart(r, k), RunEnd(r, k), |r|, maxGap)
  {
    var r := Bridged(s, maxGap);
    var i, j := RunStart(s, k), RunEnd(s, k);
    RunAround(s, k);
    assert !Fillable(i, j, |s|, maxGap);
    forall m | i <= m < j ensures r[m].Unvoiced? {
      BridgedRun(s, maxGap, i, j, m);
    }
    assert IsRun(r, i, j);
    RunBounds(r, i, j, k);
  }

  /** Bridging is idempotent. */
  lemma BridgeIdempotent(s: seq<Frame>, maxGap: int)
    ensures Bridged(Bridged(s, maxGap), maxGap) == Bridged(s, maxGap)
  {
    var r := Bridged(s, maxGap);
    forall k | 0 <= k < |r| ensures Bridged(r, maxGap)[k] == r[k] {
      if r[k].Unvoiced? {
        BridgedRunsFailTest(s, maxGap, k);
      }
    }
  }

  /** With maxGap = 3 a two-frame interior gap is held at the pre-gap value,
      while a five-frame gap is left unvoiced. */
  lemma BridgeExamples()
    ensures Bridged([Voiced(100.0), Unvoiced, Unvoiced, Voiced(200.0)], 3)
         == [Voiced(100.0), Voiced(100.0), Voiced(100.0), Voiced(200.0)]
    ensures var s := [Voiced(100.0), Unvoiced, Unvoiced, Unvoiced, Unvoiced, Unvoiced, Voiced(200.0)];
            Bridged(s, 3) == s
    ensures var s := [Voiced(100.0), Unvoiced, Unvoiced, Unvoiced, Unvoiced, Unvoiced, Voiced(200.0)];
            Bridged(s, DefaultMaxGap) == [Voiced(100.0), Voiced(100.0), Voiced(100.0), Voiced(100.0),
                                          Voiced(100.0), Voiced(100.0), Voiced(200.0)]
  {
    var a := [Voiced(100.0), Unvoiced, Unvoiced, Voiced(200.0)];
    assert IsRun(a, 1, 3);
    BridgedRun(a, 3, 1, 3, 1);
    BridgedRun(a, 3, 1, 3, 2);
    var b := [Voiced(100.0), Unvoiced, Unvoiced, Unvoiced, Unvoiced, Unvoiced, Voiced(200.0)];
    assert IsRun(b, 1, 6);
    forall k | 1 <= k < 6 ensures Bridged(b, 3)[k] == b[k] {
      BridgedRun(b, 3, 1, 6, k);
    }
    forall k | 1 <= k < 6 ensures Bridged(b, DefaultMaxGap)[k] == Voiced(100.0) {
      BridgedRun(b, DefaultMaxGap, 1, 6, k);
    }
  }
}
