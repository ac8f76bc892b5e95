/**
 * The older note segmenter `segment_notes` embedded in generate_project.py.
 *
 * Unlike segment_notes_from_pitch it scans from frame 0, splits only at NaN
 * frames (so a segment is a maximal voiced run, whatever its pitch jumps), keeps
 * runs of any length, and measures a note from its first to its last frame time
 * without adding a hop, so a single-frame run always lasts 0 seconds and is
 * dropped. An input of fewer than 3 frames gives no note.
 */
module LegacyNotes {
  import opened Frames
  import opened NoteNames
  import opened NoteScan
  import opened NoteRecords

  datatype LegacyNote = LegacyNote(start: real, end: real, duration: real, midi: int, name: string)

  /** segment_notes returns no note for fewer than this many frames. */
  const MinFrames: nat := 3

  /** One iteration of the split loop, at frame i: a NaN frame closes the open
      run, a voiced frame joins it. */
  function SplitStep(f0: seq<Frame>, st: Scan, i: nat): Scan
    requires i < |f0|
  {
    if f0[i].Unvoiced? then
      if st.current != [] then Scan(st.notes + [st.current], []) else st
    else Scan(st.notes, st.current + [i])
  }

  /** The split state once frames 0 .. i-1 have been seen. */
  function SplitTo(f0: seq<Frame>, i: nat): (st: Scan)
    requires i <= |f0|
    ensures NonEmpty(st.notes)
  {
    if i == 0 then Scan([], []) else SplitStep(f0, SplitTo(f0, i - 1), i - 1)
  }

  /** The final flush of the open run. */
  function Flush(st: Scan): seq<seq<nat>>
  {
    if st.current != [] then st.notes + [st.current] else st.notes
  }

  /** The segments of segment_notes. */
  function VoicedRuns(f0: seq<Frame>): (segs: seq<seq<nat>>)
    ensures NonEmpty(segs)
  {
    Flush(SplitTo(f0, |f0|))
  }

  /** The split loop of segment_notes. */
  method SplitVoiced(f0: seq<Frame>) returns (segments: seq<seq<nat>>)
    ensures segments == VoicedRuns(f0)
  {
    segments := [];
    var cur: seq<nat> := [];
    for i := 0 to |f0|
      invariant Scan(segments, cur) == SplitTo(f0, i)
    {
      if f0[i].Unvoiced? {
        if cur != [] {
          segments := segments + [cur];
          cur := [];
        }
      } else {
        cur := cur + [i];
      }
    }
    if cur != [] {
      segments := segments + [cur];
    }
  }

  /** seg lists the frames of a maximal run of voiced frames. */
  predicate IsVoicedRun(f0: seq<Frame>, seg: seq<nat>)
  {
    && |seg| > 0 && seg[0] + |seg| <= |f0|
    && seg == Range(seg[0], seg[0] + |seg|)
    && f0[seg[0]].Voiced? && IsRun(f0, seg[0], seg[0] + |seg|)
  }

  predicate AllVoicedRuns(f0: seq<Frame>, segs: seq<seq<nat>>)
  {
    forall p :: 0 <= p < |segs| ==> IsVoicedRun(f0, segs[p])
  }

  /** The open run is the voiced run that ends at frame i-1, if that frame is voiced. */
  predicate OpenRun(f0: seq<Frame>, i: nat, st: Scan)
    requires i <= |f0|
  {
    if i > 0 && f0[i - 1].Voiced?
    then st.current == Range(RunStart(f0, i - 1), i)
    else st.current == []
  }

  /** Every voiced frame before b lies in a segment. */
  predicate CoversVoiced(f0: seq<Frame>, segs: seq<seq<nat>>, b: nat)
    requires b <= |f0|
  {
    forall j :: 0 <= j < b && f0[j].Voiced? ==> Covered(segs, j)
  }

  /** What the split loop keeps true once frames 0 .. i-1 have been seen. */
  predicate SplitInv(f0: seq<Frame>, i: nat, st: Scan)
    requires i <= |f0| && NonEmpty(st.notes)
  {
    && OpenRun(f0, i, st)
    && Frontier(st, i) <= i
    && AllVoicedRuns(f0, st.notes)
    && InOrder(st.notes)
    && EndBefore(st.notes, Frontier(st, i))
    && CoversVoiced(f0, st.notes, Frontier(st, i))
  }

  /** Appending the run [s, i) keeps the segments non-empty voiced runs in order. */
  lemma AppendRunShape(f0: seq<Frame>, segs: seq<seq<nat>>, s: nat, i: nat)
    requires IsRun(f0, s, i) && f0[s].Voiced?
    requires NonEmpty(segs) && AllVoicedRuns(f0, segs) && InOrder(segs) && EndBefore(segs, s)
    ensures var segs' := segs + [Range(s, i)];
      && NonEmpty(segs') && AllVoicedRuns(f0, segs') && InOrder(segs') && EndBefore(segs', i)
  {
    assert Range(s, i)[0] == s;
  }

  /** Appending the run [s, i) covers every voiced frame before i. */
  lemma AppendRunCovers(f0: seq<Frame>, segs: seq<seq<nat>>, s: nat, i: nat)
    requires s < i <= |f0| && CoversVoiced(f0, segs, s)
    ensures CoversVoiced(f0, segs + [Range(s, i)], i)
  {
    var segs' := segs + [Range(s, i)];
    forall j | 0 <= j < i && f0[j].Voiced? ensures Covered(segs', j) {
      if j >= s {
        assert Range(s, i)[j - s] == j;
        assert j in segs'[|segs|];
      } else {
        var p :| 0 <= p < |segs| && j in segs[p];
        assert segs'[p] == segs[p];
      }
    }
  }

  /** Appending the voiced run [s, i), which follows every segment, keeps the
      segments in order and covers it. */
  lemma AppendRun(f0: seq<Frame>, segs: seq<seq<nat>>, s: nat, i: nat)
    requires IsRun(f0, s, i) && f0[s].Voiced?
    requires NonEmpty(segs) && AllVoicedRuns(f0, segs) && InOrder(segs)
    requires EndBefore(segs, s) && CoversVoiced(f0, segs, s)
    ensures var segs' := segs + [Range(s, i)];
      && NonEmpty(segs') && AllVoicedRuns(f0, segs') && InOrder(segs')
      && EndBefore(segs', i) && CoversVoiced(f0, segs', i)
  {
    AppendRunShape(f0, segs, s, i);
    AppendRunCovers(f0, segs, s, i);
  }

  /** The open run of voiced frames ending at frame i-1 is a maximal run when
      frame i is NaN or there is no frame i. */
  lemma OpenRunIsRun(f0: seq<Frame>, i: nat)
    requires 0 < i <= |f0| && f0[i - 1].Voiced? && (i == |f0| || f0[i].Unvoiced?)
    ensures IsRun(f0, RunStart(f0, i - 1), i) && f0[RunStart(f0, i - 1)].Voiced?
  {
  }

  /** One step of the split loop keeps the invariant. */
  lemma SplitStepKeeps(f0: seq<Frame>, i: nat, st: Scan)
    requires i < |f0| && NonEmpty(st.notes) && SplitInv(f0, i, st)
    ensures NonEmpty(SplitStep(f0, st, i).notes)
    ensures SplitInv(f0, i + 1, SplitStep(f0, st, i))
  {
    if f0[i].Unvoiced? {
      NaNKeeps(f0, i, st);
    } else {
      VoicedKeeps(f0, i, st);
    }
  }

  /** A NaN frame closes the open run and keeps the invariant. */
  lemma NaNKeeps(f0: seq<Frame>, i: nat, st: Scan)
    requires i < |f0| && f0[i].Unvoiced? && NonEmpty(st.notes) && SplitInv(f0, i, st)
    ensures NonEmpty(SplitStep(f0, st, i).notes)
    ensures SplitInv(f0, i + 1, SplitStep(f0, st, i))
  {
    if st.current != [] {
      OpenRunIsRun(f0, i);
      AppendRun(f0, st.notes, RunStart(f0, i - 1), i);
    }
  }

  /** A voiced frame joins the open run and keeps the invariant. */
  lemma VoicedKeeps(f0: seq<Frame>, i: nat, st: Scan)
    requires i < |f0| && f0[i].Voiced? && NonEmpty(st.notes) && SplitInv(f0, i, st)
    ensures NonEmpty(SplitStep(f0, st, i).notes)
    ensures SplitInv(f0, i + 1, SplitStep(f0, st, i))
  {
    OpenRunGrows(f0, i, st);
    assert Range(RunStart(f0, i), i + 1)[0] == RunStart(f0, i);
  }

  /** A voiced frame extends the open run, which still starts where its voiced
      run starts. */
  lemma OpenRunGrows(f0: seq<Frame>, i: nat, st: Scan)
    requires i < |f0| && f0[i].Voiced? && OpenRun(f0, i, st)
    ensures st.current + [i] == Range(RunStart(f0, i), i + 1)
  {
    if st.current != [] {
      assert RunStart(f0, i) == RunStart(f0, i - 1);
    }
  }

  lemma {:induction false} SplitInvHolds(f0: seq<Frame>, i: nat)
    requires i <= |f0|
    ensures SplitInv(f0, i, SplitTo(f0, i))
  {
    if i > 0 {
      SplitInvHolds(f0, i - 1);
      SplitStepKeeps(f0, i - 1, SplitTo(f0, i - 1));
    }
  }

  /** The final flush leaves the invariant over every frame. */
  lemma FlushRuns(f0: seq<Frame>)
    ensures AllVoicedRuns(f0, VoicedRuns(f0)) && InOrder(VoicedRuns(f0))
    ensures CoversVoiced(f0, VoicedRuns(f0), |f0|)
  {
    var n := |f0|;
    var st := SplitTo(f0, n);
    SplitInvHolds(f0, n);
    if st.current != [] {
      OpenRunIsRun(f0, n);
      AppendRun(f0, st.notes, RunStart(f0, n - 1), n);
    }
  }

  /** A frame inside a voiced run is voiced. */
  lemma RunFrameVoiced(f0: seq<Frame>, segs: seq<seq<nat>>, j: nat)
    requires j < |f0| && AllVoicedRuns(f0, segs) && Covered(segs, j)
    ensures f0[j].Voiced?
  {
    var p :| 0 <= p < |segs| && j in segs[p];
    var seg := segs[p];
    assert IsVoicedRun(f0, seg);
    var k :| 0 <= k < |seg| && seg[k] == j;
  }

  /** The segments of segment_notes are exactly the maximal voiced runs, frame 0
      included, in frame order: each segment is a maximal run of voiced frames,
      and a frame lies in a segment exactly when it is voiced. */
  lemma VoicedRunsPartition(f0: seq<Frame>)
    ensures AllVoicedRuns(f0, VoicedRuns(f0))
    ensures InOrder(VoicedRuns(f0))
    ensures forall j :: 0 <= j < |f0| ==> (Covered(VoicedRuns(f0), j) <==> f0[j].Voiced?)
  {
    FlushRuns(f0);
    forall j | 0 <= j < |f0| && Covered(VoicedRuns(f0), j) ensures f0[j].Voiced? {
      RunFrameVoiced(f0, VoicedRuns(f0), j);
    }
  }

  /** The record of one run, or None when it lasts less than MinNoteDuration
      from its first to its last frame time. */
  function LegacyNoteOf(times: seq<real>, midi: seq<real>, seg: seq<nat>,
                        median: seq<real> -> real): Option<LegacyNote>
    requires |midi| == |times| && |seg| > 0
    requires forall k :: 0 <= k < |seg| ==> seg[k] < |times|
  {
    var start := times[seg[0]];
    var end := times[seg[|seg| - 1]];
    var duration := end - start;
    if duration < MinNoteDuration then None
    else
      var note := RoundHalfEven(median(Gather(midi, seg)));
      Some(LegacyNote(start, end, duration, note, NoteName(note)))
  }

  function LegacyNotesFrom(times: seq<real>, midi: seq<real>, segs: seq<seq<nat>>,
                           median: seq<real> -> real): (notes: seq<LegacyNote>)
    requires |midi| == |times| && FramesBelow(segs, |times|)
    ensures |notes| <= |segs|
  {
    if |segs| == 0 then []
    else
      var init := LegacyNotesFrom(times, midi, segs[..|segs| - 1], median);
      match LegacyNoteOf(times, midi, segs[|segs| - 1], median)
        case None => init
        case Some(n) => init + [n]
  }

  /** The runs index frames of the input and are consecutive. */
  lemma RunsIndexFrames(f0: seq<Frame>)
    ensures FramesBelow(VoicedRuns(f0), |f0|) && Contiguous(VoicedRuns(f0))
  {
    var segs := VoicedRuns(f0);
    FlushRuns(f0);
    forall p | 0 <= p < |segs|
      ensures |segs[p]| > 0 && forall k :: 0 <= k < |segs[p]| ==> segs[p][k] < |f0|
    {
      assert IsVoicedRun(f0, segs[p]);
    }
  }

  /** What segment_notes returns. */
  function LegacyNotesOf(times: seq<real>, f0: seq<Frame>, midi: seq<real>,
                         median: seq<real> -> real): seq<LegacyNote>
    requires |times| == |f0| && |midi| == |f0|
  {
    if |f0| < MinFrames then []
    else
      RunsIndexFrames(f0);
      LegacyNotesFrom(times, midi, VoicedRuns(f0), median)
  }

  /** One iteration of the record loop of segment_notes. */
  method AppendLegacyRecord(times: seq<real>, midi: seq<real>, seg: seq<nat>,
                            median: seq<real> -> real, notes: seq<LegacyNote>)
    returns (notes': seq<LegacyNote>)
    requires |midi| == |times| && |seg| > 0
    requires forall k :: 0 <= k < |seg| ==> seg[k] < |times|
    ensures LegacyNoteOf(times, midi, seg, median).None? ==> notes' == notes
    ensures LegacyNoteOf(times, midi, seg, median).Some? ==>
      notes' == notes + [LegacyNoteOf(times, midi, seg, median).value]
  {
    var start := times[seg[0]];
    var end := times[seg[|seg| - 1]];
    var duration := end - start;
    if duration < MinNoteDuration {
      notes' := notes;
    } else {
      var med := median(Gather(midi, seg));
      var note := RoundHalfEven(med);
      var name := NoteName(note);
      notes' := notes + [LegacyNote(start, end, duration, note, name)];
    }
  }

  /** segment_notes: split at NaN frames, then one record per run that lasts
      long enough. */
  method SegmentNotes(times: seq<real>, f0: seq<Frame>, midi: seq<real>, median: seq<real> -> real)
    returns (notes: seq<LegacyNote>)
    requires |times| == |f0| && |midi| == |f0|
    ensures notes == LegacyNotesOf(times, f0, midi, median)
  {
    if |f0| < MinFrames {
      return [];
    }
    var segments := SplitVoiced(f0);
    RunsIndexFrames(f0);
    notes := [];
    var p := 0;
    while p < |segments|
      invariant p <= |segments|
      invariant notes == LegacyNotesFrom(times, midi, segments[..p], median)
    {
      assert segments[..p + 1][..p] == segments[..p];
      notes := AppendLegacyRecord(times, midi, segments[p], median, notes);
      p := p + 1;
    }
    assert segments[..p] == segments;
  }

  /** A run becomes a note exactly when its last frame time is at least
      MinNoteDuration after its first; a single-frame run never does. */
  lemma LegacyTiming(times: seq<real>, midi: seq<real>, seg: seq<nat>, median: seq<real> -> real)
    requires |midi| == |times| && |seg| > 0
    requires forall k :: 0 <= k < |seg| ==> seg[k] < |times|
    ensures LegacyNoteOf(times, midi, seg, median).Some?
        <==> times[seg[|seg| - 1]] - times[seg[0]] >= MinNoteDuration
    ensures LegacyNoteOf(times, midi, seg, median).Some? ==>
      var n := LegacyNoteOf(times, midi, seg, median).value;
      n.start == times[seg[0]] && n.end == times[seg[|seg| - 1]] && n.duration == n.end - n.start
    ensures |seg| == 1 ==> LegacyNoteOf(times, midi, seg, median).None?
  {
  }

  /** On an evenly spaced grid a run of c frames lasts c-1 hops, one hop less
      than segment_notes_from_pitch counts for the same frames. */
  lemma LegacyDuration(times: seq<real>, midi: seq<real>, seg: seq<nat>, median: seq<real> -> real)
    requires |midi| == |times| && |seg| > 0 && EvenlySpaced(times)
    requires seg == Range(seg[0], seg[0] + |seg|) && seg[0] + |seg| <= |times|
    ensures LegacyNoteOf(times, midi, seg, median).Some?
        <==> ((|seg| - 1) as real) * Hop(times) >= MinNoteDuration
    ensures LegacyNoteOf(times, midi, seg, median).Some? ==>
      LegacyNoteOf(times, midi, seg, median).value.duration == ((|seg| - 1) as real) * Hop(times)
  {
    LegacyTiming(times, midi, seg, median);
    RunSpan(times, seg);
  }

  /** On an evenly spaced grid c consecutive frames span c-1 hops. */
  lemma RunSpan(times: seq<real>, seg: seq<nat>)
    requires |seg| > 0 && EvenlySpaced(times)
    requires seg == Range(seg[0], seg[0] + |seg|) && seg[0] + |seg| <= |times|
    ensures times[seg[|seg| - 1]] - times[seg[0]] == ((|seg| - 1) as real) * Hop(times)
  {
    var a, c := seg[0], |seg|;
    assert seg[c - 1] == a + (c - 1);
    Span(times, a, c - 1);
  }

  /** The note number is the median rounded half to even (within half a
      semitone, even on a tie), and its name reads back to it. */
  lemma LegacyMidi(times: seq<real>, midi: seq<real>, seg: seq<nat>, median: seq<real> -> real)
    requires |midi| == |times| && |seg| > 0
    requires forall k :: 0 <= k < |seg| ==> seg[k] < |times|
    requires LegacyNoteOf(times, midi, seg, median).Some?
    ensures var n := LegacyNoteOf(times, midi, seg, median).value; var med := median(Gather(midi, seg));
      && -0.5 <= med - n.midi as real <= 0.5
      && (med - n.midi as real == 0.5 || n.midi as real - med == 0.5 ==> n.midi % 2 == 0)
      && n.midi == RoundHalfEven(med)
      && ParseNoteName(n.name) == Some(n.midi)
  {
    NoteNameRoundTrip(LegacyNoteOf(times, midi, seg, median).value.midi);
  }

  /** Frame times that strictly increase. */
  predicate Increasing(times: seq<real>)
  {
    forall i, j :: 0 <= i < j < |times| ==> times[i] < times[j]
  }

  /** Each note ends strictly before the next one starts. */
  predicate Disjoint(notes: seq<LegacyNote>)
  {
    forall p, q :: 0 <= p < q < |notes| ==> notes[p].end < notes[q].start
  }

  predicate EndsBy(notes: seq<LegacyNote>, t: real)
  {
    forall p :: 0 <= p < |notes| ==> notes[p].end <= t
  }

  /** Appending a note that starts after every earlier one has ended keeps the
      notes disjoint. */
  lemma ExtendDisjoint(before: seq<LegacyNote>, record: Option<LegacyNote>, start: real, bound: real)
    requires Disjoint(before) && (forall p :: 0 <= p < |before| ==> before[p].end < start)
    requires start <= bound
    requires record.Some? ==> record.value.start == start && record.value.end == bound
    ensures var notes := if record.None? then before else before + [record.value];
      Disjoint(notes) && EndsBy(notes, bound)
  {
  }

  /** With strictly increasing frame times the notes are disjoint and in time
      order, and none ends after the last frame of the last run. */
  lemma {:induction false} LegacyNotesInOrder(times: seq<real>, midi: seq<real>, segs: seq<seq<nat>>,
                                              median: seq<real> -> real)
    requires |midi| == |times| && FramesBelow(segs, |times|) && Contiguous(segs)
    requires NonEmpty(segs) && InOrder(segs) && Increasing(times)
    ensures Disjoint(LegacyNotesFrom(times, midi, segs, median))
    ensures |segs| > 0 ==> EndsBy(LegacyNotesFrom(times, midi, segs, median), times[Last(segs[|segs| - 1])])
    decreases |segs|
  {
    if |segs| == 0 {
      return;
    }
    var init := segs[..|segs| - 1];
    var seg := segs[|segs| - 1];
    DropLast(segs, |times|);
    LegacyNotesInOrder(times, midi, init, median);
    var a, z := seg[0], Last(seg);
    assert seg[|seg| - 1] == a + (|seg| - 1);
    var before := LegacyNotesFrom(times, midi, init, median);
    if |init| > 0 {
      assert Last(init[|init| - 1]) < a;
    }
    LegacyTiming(times, midi, seg, median);
    var record := LegacyNoteOf(times, midi, seg, median);
    assert LegacyNotesFrom(times, midi, segs, median)
        == if record.None? then before else before + [record.value];
    ExtendDisjoint(before, record, times[a], times[z]);
  }

  /** segment_notes gives no note for fewer than 3 frames or without a voiced
      frame, and otherwise notes that are disjoint in time when the frame times
      strictly increase. */
  lemma LegacyNotesShape(times: seq<real>, f0: seq<Frame>, midi: seq<real>, median: seq<real> -> real)
    requires |times| == |f0| && |midi| == |f0|
    ensures |f0| < MinFrames ==> LegacyNotesOf(times, f0, midi, median) == []
    ensures (forall j :: 0 <= j < |f0| ==> f0[j].Unvoiced?) ==> LegacyNotesOf(times, f0, midi, median) == []
    ensures Increasing(times) ==> Disjoint(LegacyNotesOf(times, f0, midi, median))
  {
    if |f0| >= MinFrames {
      RunsIndexFrames(f0);
      VoicedRunsPartition(f0);
      var segs := VoicedRuns(f0);
      if segs != [] {
        assert segs[0][0] in segs[0];
        assert Covered(segs, segs[0][0]);
      }
      if Increasing(times) {
        LegacyNotesInOrder(times, midi, segs, median);
      }
    }
  }
}
