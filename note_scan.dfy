/**
 * The run state machine of segment_notes_from_pitch (src/notes.py).
 *
 * The scan starts at frame 1. It keeps the list `current` of consecutive voiced
 * frames whose neighbours are at most 1.5 semitones apart. An unvoiced frame or
 * a larger jump closes `current`; a closed run is kept as a segment when it has
 * at least 5 frames. `midi` is the per-frame MIDI value the source computes up
 * front with librosa.hz_to_midi; it is an input here.
 *
 * The partner of the scan is a frame-level description: frame j is linked to
 * frame j-1 when both are voiced, j >= 2 and they are within the threshold. The
 * segments are exactly the maximal linked chains of at least 5 frames.
 */
module NoteScan {
  import opened Frames

  const ChangeThresh: real := 1.5
  const MinNoteFrames: nat := 5

  function Abs(x: real): real
  {
    if x < 0.0 then -x else x
  }

  function Last(s: seq<nat>): nat
    requires |s| > 0
  {
    s[|s| - 1]
  }

  /** The frames a, a+1, ..., b-1. */
  function Range(a: nat, b: nat): (r: seq<nat>)
    requires a <= b
    ensures |r| == b - a
    ensures forall p :: 0 <= p < |r| ==> r[p] == a + p
  {
    seq(b - a, p requires 0 <= p < b - a => a + p)
  }

  /** The scan puts frame j in the same run as frame j-1. Frame 1 never joins
      frame 0: the scan starts at frame 1 with an empty run. */
  predicate Linked(f0: seq<Frame>, midi: seq<real>, j: nat)
    requires |midi| == |f0| && j < |f0|
  {
    j >= 2 && f0[j].Voiced? && f0[j - 1].Voiced? && Abs(midi[j] - midi[j - 1]) <= ChangeThresh
  }

  /** First frame of the maximal linked chain that ends at voiced frame j. */
  function ChainStart(f0: seq<Frame>, midi: seq<real>, j: nat): (r: nat)
    requires |midi| == |f0| && 1 <= j < |f0| && f0[j].Voiced?
    ensures 1 <= r <= j && f0[r].Voiced? && !Linked(f0, midi, r)
    ensures forall k :: r < k <= j ==> Linked(f0, midi, k)
  {
    if Linked(f0, midi, j) then ChainStart(f0, midi, j - 1) else j
  }

  /** End (exclusive) of the maximal linked chain that starts at voiced frame j. */
  function ChainEnd(f0: seq<Frame>, midi: seq<real>, j: nat): (r: nat)
    requires |midi| == |f0| && j < |f0|
    ensures j < r <= |f0|
    ensures forall k :: j < k < r ==> Linked(f0, midi, k)
    ensures r == |f0| || !Linked(f0, midi, r)
    decreases |f0| - j
  {
    if j + 1 < |f0| && Linked(f0, midi, j + 1) then ChainEnd(f0, midi, j + 1) else j + 1
  }

  /** [a, b) is a maximal linked chain of voiced frames. */
  predicate IsChain(f0: seq<Frame>, midi: seq<real>, a: nat, b: nat)
    requires |midi| == |f0|
  {
    && 1 <= a < b <= |f0|
    && f0[a].Voiced? && !Linked(f0, midi, a)
    && (forall k :: a < k < b ==> Linked(f0, midi, k))
    && (b == |f0| || !Linked(f0, midi, b))
  }

  /** The chain functions find exactly the maximal chain around a frame. */
  lemma {:induction false} ChainStartOf(f0: seq<Frame>, midi: seq<real>, a: nat, b: nat, j: nat)
    requires |midi| == |f0| && IsChain(f0, midi, a, b) && a <= j < b
    ensures f0[j].Voiced? && ChainStart(f0, midi, j) == a
    decreases j
  {
    if j > a {
      assert Linked(f0, midi, j);
      ChainStartOf(f0, midi, a, b, j - 1);
    }
  }

  lemma {:induction false} ChainEndOf(f0: seq<Frame>, midi: seq<real>, a: nat, b: nat, j: nat)
    requires |midi| == |f0| && IsChain(f0, midi, a, b) && a <= j < b
    ensures ChainEnd(f0, midi, j) == b
    decreases b - j
  {
    if j + 1 < b {
      assert Linked(f0, midi, j + 1);
      ChainEndOf(f0, midi, a, b, j + 1);
    }
  }

  lemma ChainBounds(f0: seq<Frame>, midi: seq<real>, a: nat, b: nat, j: nat)
    requires |midi| == |f0| && IsChain(f0, midi, a, b) && a <= j < b
    ensures f0[j].Voiced?
    ensures ChainStart(f0, midi, j) == a && ChainEnd(f0, midi, j) == b
  {
    ChainStartOf(f0, midi, a, b, j);
    ChainEndOf(f0, midi, a, b, j);
  }

  /** Frame j is voiced and its maximal chain has at least MinNoteFrames frames. */
  predicate LongChain(f0: seq<Frame>, midi: seq<real>, j: nat)
    requires |midi| == |f0| && 1 <= j < |f0|
  {
    f0[j].Voiced? && ChainEnd(f0, midi, j) - ChainStart(f0, midi, j) >= MinNoteFrames
  }

  /** A segment as the scan emits it: a maximal linked chain of at least
      MinNoteFrames frames, listed frame by frame. */
  predicate IsSegment(f0: seq<Frame>, midi: seq<real>, seg: seq<nat>)
    requires |midi| == |f0|
  {
    && |seg| >= MinNoteFrames
    && seg[0] + |seg| <= |f0|
    && seg == Range(seg[0], seg[0] + |seg|)
    && IsChain(f0, midi, seg[0], seg[0] + |seg|)
  }

  /** Every segment has at least MinNoteFrames frames. */
  predicate LongEnough(segs: seq<seq<nat>>)
  {
    forall p :: 0 <= p < |segs| ==> |segs[p]| >= MinNoteFrames
  }

  /** No segment is empty. */
  predicate NonEmpty(segs: seq<seq<nat>>)
  {
    forall p :: 0 <= p < |segs| ==> |segs[p]| > 0
  }

  /** Frame j lies in one of the segments. */
  predicate Covered(segs: seq<seq<nat>>, j: nat)
  {
    exists p :: 0 <= p < |segs| && j in segs[p]
  }

  datatype Scan = Scan(notes: seq<seq<nat>>, current: seq<nat>)

  /** Closing the current run keeps it when it is long enough. */
  function Close(st: Scan): seq<seq<nat>>
  {
    if |st.current| >= MinNoteFrames then st.notes + [st.current] else st.notes
  }

  /** One iteration of the scan, at frame i. */
  function ScanStep(f0: seq<Frame>, midi: seq<real>, st: Scan, i: nat): Scan
    requires |midi| == |f0| && i < |f0|
    requires st.current == [] || Last(st.current) < |f0|
  {
    if f0[i].Unvoiced? then Scan(Close(st), [])
    else if st.current == [] then Scan(st.notes, [i])
    else if Abs(midi[i] - midi[Last(st.current)]) > ChangeThresh then Scan(Close(st), [i])
    else Scan(st.notes, st.current + [i])
  }

  /** The scan state once frames 1 .. i-1 have been seen. */
  function ScanTo(f0: seq<Frame>, midi: seq<real>, i: nat): (st: Scan)
    requires |midi| == |f0| && (i <= 1 || i <= |f0|)
    ensures st.current == [] || (i >= 2 && Last(st.current) == i - 1)
    ensures LongEnough(st.notes)
  {
    if i <= 1 then Scan([], [])
    else ScanStep(f0, midi, ScanTo(f0, midi, i - 1), i - 1)
  }

  /** The segments segment_notes_from_pitch emits: the scan over every frame,
      then the final flush. */
  function Segments(f0: seq<Frame>, midi: seq<real>): (segs: seq<seq<nat>>)
    requires |midi| == |f0|
    ensures LongEnough(segs)
  {
    Close(ScanTo(f0, midi, |f0|))
  }

  /** The segmentation loop of segment_notes_from_pitch. */
  method SegmentFrames(f0: seq<Frame>, midi: seq<real>) returns (segments: seq<seq<nat>>)
    requires |midi| == |f0|
    ensures segments == Segments(f0, midi)
  {
    var notes: seq<seq<nat>> := [];
    var current: seq<nat> := [];
    var i := 1;
    while i < |f0|
      invariant 1 <= i && (i <= 1 || i <= |f0|)
      invariant Scan(notes, current) == ScanTo(f0, midi, i)
    {
      if f0[i].Unvoiced? {
        if |current| >= MinNoteFrames {
          notes := notes + [current];
        }
        current := [];
        i := i + 1;
        continue;
      }
      if current == [] {
        current := [i];
        i := i + 1;
        continue;
      }
      var prevMidi := midi[current[|current| - 1]];
      var currMidi := midi[i];
      if Abs(currMidi - prevMidi) > ChangeThresh {
        if |current| >= MinNoteFrames {
          notes := notes + [current];
        }
        current := [i];
      } else {
        current := current + [i];
      }
      i := i + 1;
    }
    if |current| >= MinNoteFrames {
      notes := notes + [current];
    }
    segments := notes;
  }

  /** Where the next segment can start: the start of the open run, or the next frame. */
  function Frontier(st: Scan, i: nat): nat
  {
    if st.current == [] then i else st.current[0]
  }

  /** The open run is the chain that ends at frame i-1, when that frame is voiced. */
  predicate OpenRunIsChain(f0: seq<Frame>, midi: seq<real>, i: nat, st: Scan)
    requires |midi| == |f0| && 1 <= i <= |f0|
  {
    if i >= 2 && f0[i - 1].Voiced?
    then st.current == Range(ChainStart(f0, midi, i - 1), i)
    else st.current == []
  }

  predicate AllSegments(f0: seq<Frame>, midi: seq<real>, segs: seq<seq<nat>>)
    requires |midi| == |f0|
  {
    forall p :: 0 <= p < |segs| ==> IsSegment(f0, midi, segs[p])
  }

  /** Segments appear in frame order and do not overlap. */
  predicate InOrder(segs: seq<seq<nat>>)
    requires NonEmpty(segs)
  {
    forall p, q :: 0 <= p < q < |segs| ==> Last(segs[p]) < segs[q][0]
  }

  /** Every segment ends before frame b. */
  predicate EndBefore(segs: seq<seq<nat>>, b: nat)
    requires NonEmpty(segs)
  {
    forall p :: 0 <= p < |segs| ==> Last(segs[p]) < b
  }

  /** Every frame before b whose chain is long enough lies in a segment. */
  predicate CoversBefore(f0: seq<Frame>, midi: seq<real>, segs: seq<seq<nat>>, b: nat)
    requires |midi| == |f0| && b <= |f0|
  {
    forall j :: 1 <= j < b && LongChain(f0, midi, j) ==> Covered(segs, j)
  }

  /** What the scan keeps true once frames 1 .. i-1 have been seen. */
  predicate ScanInv(f0: seq<Frame>, midi: seq<real>, i: nat, st: Scan)
    requires |midi| == |f0| && 1 <= i <= |f0| && LongEnough(st.notes)
  {
    && OpenRunIsChain(f0, midi, i, st)
    && Frontier(st, i) <= i
    && AllSegments(f0, midi, st.notes)
    && InOrder(st.notes)
    && EndBefore(st.notes, Frontier(st, i))
    && CoversBefore(f0, midi, st.notes, Frontier(st, i))
  }

  /** Appending the maximal chain [s, i) of at least MinNoteFrames frames, which
      follows every segment, keeps the segments in order and covers it. */
  lemma AppendChain(f0: seq<Frame>, midi: seq<real>, segs: seq<seq<nat>>, s: nat, i: nat)
    requires |midi| == |f0| && IsChain(f0, midi, s, i) && i - s >= MinNoteFrames
    requires LongEnough(segs) && AllSegments(f0, midi, segs) && InOrder(segs)
    requires EndBefore(segs, s) && CoversBefore(f0, midi, segs, s)
    ensures var segs' := segs + [Range(s, i)];
      && LongEnough(segs') && AllSegments(f0, midi, segs') && InOrder(segs')
      && EndBefore(segs', i) && CoversBefore(f0, midi, segs', i)
  {
    var segs' := segs + [Range(s, i)];
    assert Range(s, i)[0] == s;
    forall j | 1 <= j < i && LongChain(f0, midi, j) ensures Covered(segs', j) {
      if j >= s {
        assert Range(s, i)[j - s] == j;
        assert j in segs'[|segs|];
      } else {
        var p :| 0 <= p < |segs| && j in segs[p];
        assert segs'[p] == segs[p];
      }
    }
  }

  /** A maximal chain [s, i) shorter than MinNoteFrames holds no frame with a long chain. */
  lemma ShortChainNotLong(f0: seq<Frame>, midi: seq<real>, segs: seq<seq<nat>>, s: nat, i: nat)
    requires |midi| == |f0| && IsChain(f0, midi, s, i) && i - s < MinNoteFrames
    requires CoversBefore(f0, midi, segs, s)
    ensures CoversBefore(f0, midi, segs, i)
  {
    forall j | s <= j < i ensures !LongChain(f0, midi, j) {
      ChainBounds(f0, midi, s, i, j);
    }
  }

  /** Closing the open run when frame i ends its chain keeps the invariant, with
      every segment ending before frame i. */
  lemma CloseKeeps(f0: seq<Frame>, midi: seq<real>, i: nat, st: Scan)
    requires |midi| == |f0| && 2 <= i < |f0| && LongEnough(st.notes) && ScanInv(f0, midi, i, st)
    requires st.current != [] && !Linked(f0, midi, i)
    ensures LongEnough(Close(st)) && AllSegments(f0, midi, Close(st)) && InOrder(Close(st))
    ensures EndBefore(Close(st), i) && CoversBefore(f0, midi, Close(st), i)
  {
    var s := ChainStart(f0, midi, i - 1);
    assert IsChain(f0, midi, s, i);
    if i - s >= MinNoteFrames {
      AppendChain(f0, midi, st.notes, s, i);
    } else {
      ShortChainNotLong(f0, midi, st.notes, s, i);
    }
  }

  /** One step of the scan keeps the invariant. */
  lemma StepKeeps(f0: seq<Frame>, midi: seq<real>, i: nat, st: Scan)
    requires |midi| == |f0| && 1 <= i < |f0| && LongEnough(st.notes) && ScanInv(f0, midi, i, st)
    requires st.current == [] || Last(st.current) == i - 1
    ensures LongEnough(ScanStep(f0, midi, st, i).notes)
    ensures ScanInv(f0, midi, i + 1, ScanStep(f0, midi, st, i))
  {
    var next := ScanStep(f0, midi, st, i);
    if f0[i].Unvoiced? {
      if st.current != [] {
        CloseKeeps(f0, midi, i, st);
      }
      assert next.notes == Close(st) && next.current == [];
      assert !LongChain(f0, midi, i);
    } else if st.current == [] {
      assert !Linked(f0, midi, i);
      assert next.current == Range(ChainStart(f0, midi, i), i + 1);
    } else if Abs(midi[i] - midi[Last(st.current)]) > ChangeThresh {
      assert !Linked(f0, midi, i);
      CloseKeeps(f0, midi, i, st);
      assert next.current == Range(ChainStart(f0, midi, i), i + 1);
    } else {
      assert Linked(f0, midi, i);
      assert next.current == Range(ChainStart(f0, midi, i), i + 1);
    }
  }

  lemma {:induction false} ScanInvHolds(f0: seq<Frame>, midi: seq<real>, i: nat)
    requires |midi| == |f0| && 1 <= i <= |f0|
    ensures ScanInv(f0, midi, i, ScanTo(f0, midi, i))
  {
    if i >= 2 {
      ScanInvHolds(f0, midi, i - 1);
      StepKeeps(f0, midi, i - 1, ScanTo(f0, midi, i - 1));
    }
  }

  /** The segments are exactly the maximal linked chains of at least 5 frames,
      in increasing frame order: each segment is such a chain (consecutive
      voiced frames from frame 1 on, neighbours within 1.5 semitones, not
      extendable on either side), segments do not overlap, and a frame lies in
      a segment exactly when its chain has at least 5 frames. */
  lemma SegmentsAreLongChains(f0: seq<Frame>, midi: seq<real>)
    requires |midi| == |f0|
    ensures AllSegments(f0, midi, Segments(f0, midi))
    ensures InOrder(Segments(f0, midi))
    ensures forall j :: 1 <= j < |f0| ==> (Covered(Segments(f0, midi), j) <==> LongChain(f0, midi, j))
  {
    FlushKeeps(f0, midi);
    forall j | 1 <= j < |f0| && Covered(Segments(f0, midi), j) ensures LongChain(f0, midi, j) {
      SegmentFrameIsLong(f0, midi, Segments(f0, midi), j);
    }
  }

  /** The final flush closes the open run and leaves the invariant over every frame. */
  lemma FlushKeeps(f0: seq<Frame>, midi: seq<real>)
    requires |midi| == |f0|
    ensures AllSegments(f0, midi, Segments(f0, midi))
    ensures InOrder(Segments(f0, midi))
    ensures |f0| >= 1 ==> CoversBefore(f0, midi, Segments(f0, midi), |f0|)
  {
    var n := |f0|;
    if n <= 1 {
      return;
    }
    var st := ScanTo(f0, midi, n);
    ScanInvHolds(f0, midi, n);
    if st.current != [] {
      var s := ChainStart(f0, midi, n - 1);
      assert IsChain(f0, midi, s, n);
      if n - s >= MinNoteFrames {
        AppendChain(f0, midi, st.notes, s, n);
      } else {
        ShortChainNotLong(f0, midi, st.notes, s, n);
      }
    }
  }

  /** A frame inside a segment has a chain of at least MinNoteFrames frames. */
  lemma SegmentFrameIsLong(f0: seq<Frame>, midi: seq<real>, segs: seq<seq<nat>>, j: nat)
    requires |midi| == |f0| && 1 <= j < |f0|
    requires AllSegments(f0, midi, segs) && Covered(segs, j)
    ensures LongChain(f0, midi, j)
  {
    var p :| 0 <= p < |segs| && j in segs[p];
    var seg := segs[p];
    assert IsSegment(f0, midi, seg);
    var k :| 0 <= k < |seg| && seg[k] == j;
    ChainBounds(f0, midi, seg[0], seg[0] + |seg|, j);
  }

  /** Frame 0 is never part of a segment, and without a voiced frame after
      frame 0 there is no segment at all. */
  lemma NoSegmentWithoutVoicing(f0: seq<Frame>, midi: seq<real>)
    requires |midi| == |f0|
    ensures forall p :: 0 <= p < |Segments(f0, midi)| ==> Segments(f0, midi)[p][0] >= 1
    ensures (forall j :: 1 <= j < |f0| ==> f0[j].Unvoiced?) ==> Segments(f0, midi) == []
  {
    SegmentsAreLongChains(f0, midi);
    var segs := Segments(f0, midi);
    if segs != [] {
      assert IsSegment(f0, midi, segs[0]);
    }
  }
}
