/**
 * The record half of segment_notes_from_pitch (src/notes.py): every segment the
 * scan emits becomes a note with its start and end time, its duration, the
 * rounded median MIDI number, the note name and the cents offsets of its
 * frames. A note shorter than MinNoteDuration seconds is dropped.
 *
 * `np.nanmedian` and `np.nanstd` stay abstract (the parameters `median` and
 * `std`); the mean of the cents is computed, as its frames are all voiced.
 */
module NoteRecords {
  import opened Frames
  import opened NoteNames
  import opened NoteScan

  /** Config.MIN_NOTE_DURATION, in seconds. */
  const MinNoteDuration: real := 0.25
  /** The hop assumed when there is only one frame time. */
  const DefaultHop: real := 0.01

  datatype Note = Note(
    start: real,
    end: real,
    duration: real,
    midi: int,
    name: string,
    centsOffMean: real,
    centsOffStd: real)

  /** The time between frames: the first difference, or DefaultHop. */
  function Hop(times: seq<real>): real
  {
    if |times| > 1 then times[1] - times[0] else DefaultHop
  }

  /** Every segment is non-empty and lists frames below n. */
  predicate FramesBelow(segs: seq<seq<nat>>, n: nat)
  {
    forall p :: 0 <= p < |segs| ==> |segs[p]| > 0 && forall k :: 0 <= k < |segs[p]| ==> segs[p][k] < n
  }

  /** Every segment lists consecutive frames. */
  predicate Contiguous(segs: seq<seq<nat>>)
  {
    forall p :: 0 <= p < |segs| ==> |segs[p]| > 0 && segs[p] == Range(segs[p][0], segs[p][0] + |segs[p]|)
  }

  /** Frame times on a uniform grid: each frame is one hop after the one before. */
  predicate EvenlySpaced(times: seq<real>)
  {
    forall k :: 1 <= k < |times| ==> times[k] == times[k - 1] + Hop(times)
  }

  /** On an evenly spaced grid, c frames on from frame i is c hops later. */
  lemma {:induction false} Span(times: seq<real>, i: nat, c: nat)
    requires EvenlySpaced(times) && i + c < |times|
    ensures times[i + c] - times[i] == (c as real) * Hop(times)
    decreases c
  {
    if c > 0 {
      Span(times, i, c - 1);
      assert times[i + c] == times[i + c - 1] + Hop(times);
    }
  }

  /** On an evenly spaced grid, consecutive frames span their count in hops,
      counting the hop after the last frame. */
  lemma SegmentSpan(times: seq<real>, seg: seq<nat>)
    requires |seg| > 0 && EvenlySpaced(times)
    requires seg == Range(seg[0], seg[0] + |seg|) && seg[0] + |seg| <= |times|
    ensures times[seg[|seg| - 1]] + Hop(times) - times[seg[0]] == (|seg| as real) * Hop(times)
  {
    var h, a, c := Hop(times), seg[0], |seg|;
    assert seg[c - 1] == a + (c - 1);
    Span(times, a, c - 1);
    Stretch(times[a + (c - 1)] - times[a], h, c);
  }

  lemma Stretch(span: real, h: real, c: nat)
    requires c > 0 && span == ((c - 1) as real) * h
    ensures span + h == (c as real) * h
  {
  }

  /** With a positive hop, a later frame is at least one hop later. */
  lemma {:induction false} Spaced(times: seq<real>, i: nat, j: nat)
    requires EvenlySpaced(times) && Hop(times) > 0.0 && i < j < |times|
    ensures times[i] + Hop(times) <= times[j]
    decreases j - i
  {
    assert times[j] == times[j - 1] + Hop(times);
    if i + 1 < j {
      Spaced(times, i, j - 1);
    }
  }

  /** `midi[seg]`: the MIDI values of the frames of a segment. */
  function Gather(midi: seq<real>, seg: seq<nat>): (v: seq<real>)
    requires forall k :: 0 <= k < |seg| ==> seg[k] < |midi|
    ensures |v| == |seg| && forall k :: 0 <= k < |v| ==> v[k] == midi[seg[k]]
  {
    seq(|seg|, k requires 0 <= k < |seg| => midi[seg[k]])
  }

  /** The offset of each value from the note, in cents. */
  function Cents(v: seq<real>, note: int): (c: seq<real>)
    ensures |c| == |v| && forall k :: 0 <= k < |v| ==> c[k] == (v[k] - note as real) * 100.0
  {
    seq(|v|, k requires 0 <= k < |v| => (v[k] - note as real) * 100.0)
  }

  function Sum(v: seq<real>): real
  {
    if |v| == 0 then 0.0 else Sum(v[..|v| - 1]) + v[|v| - 1]
  }

  function Mean(v: seq<real>): real
    requires |v| > 0
  {
    Sum(v) / (|v| as real)
  }

  /** The record of one segment, or None when it lasts less than MinNoteDuration. */
  function NoteOf(times: seq<real>, midi: seq<real>, seg: seq<nat>,
                  median: seq<real> -> real, std: seq<real> -> real): Option<Note>
    requires |midi| == |times| && |seg| > 0
    requires forall k :: 0 <= k < |seg| ==> seg[k] < |times|
  {
    var start := times[seg[0]];
    var end := times[seg[|seg| - 1]] + Hop(times);
    var duration := end - start;
    if duration < MinNoteDuration then None
    else
      var values := Gather(midi, seg);
      var note := RoundHalfEven(median(values));
      var cents := Cents(values, note);
      Some(Note(start, end, duration, note, NoteName(note), Mean(cents), std(cents)))
  }

  /** The records of the segments, in segment order, short ones dropped. */
  function NotesFrom(times: seq<real>, midi: seq<real>, segs: seq<seq<nat>>,
                     median: seq<real> -> real, std: seq<real> -> real): (notes: seq<Note>)
    requires |midi| == |times| && FramesBelow(segs, |times|)
    ensures |notes| <= |segs|
  {
    if |segs| == 0 then []
    else
      var init := NotesFrom(times, midi, segs[..|segs| - 1], median, std);
      match NoteOf(times, midi, segs[|segs| - 1], median, std)
        case None => init
        case Some(n) => init + [n]
  }

  /** The segments of the scan index frames of the input and are consecutive. */
  lemma SegmentsIndexFrames(f0: seq<Frame>, midi: seq<real>)
    requires |midi| == |f0|
    ensures FramesBelow(Segments(f0, midi), |f0|) && Contiguous(Segments(f0, midi))
  {
    var segs := Segments(f0, midi);
    SegmentsAreLongChains(f0, midi);
    forall p | 0 <= p < |segs|
      ensures |segs[p]| > 0 && forall k :: 0 <= k < |segs[p]| ==> segs[p][k] < |f0|
    {
      assert IsSegment(f0, midi, segs[p]);
    }
  }

  /** What segment_notes_from_pitch returns. */
  function NoteRecordsOf(times: seq<real>, f0: seq<Frame>, midi: seq<real>,
                         median: seq<real> -> real, std: seq<real> -> real): seq<Note>
    requires |times| == |f0| && |midi| == |f0|
  {
    SegmentsIndexFrames(f0, midi);
    NotesFrom(times, midi, Segments(f0, midi), median, std)
  }

  /** One iteration of the record loop: the note of a segment is appended
      unless it lasts less than MinNoteDuration. */
  method AppendRecord(times: seq<real>, midi: seq<real>, seg: seq<nat>,
                      median: seq<real> -> real, std: seq<real> -> real, notes: seq<Note>)
    returns (notes': seq<Note>)
    requires |midi| == |times| && |seg| > 0
    requires forall k :: 0 <= k < |seg| ==> seg[k] < |times|
    ensures NoteOf(times, midi, seg, median, std).None? ==> notes' == notes
    ensures NoteOf(times, midi, seg, median, std).Some? ==>
      notes' == notes + [NoteOf(times, midi, seg, median, std).value]
  {
    var hop := Hop(times);
    var start := times[seg[0]];
    var end := times[seg[|seg| - 1]] + hop;
    var duration := end - start;
    if duration < MinNoteDuration {
      return notes;
    }
    var values := Gather(midi, seg);
    var noteInt := RoundHalfEven(median(values));
    var cents := Cents(values, noteInt);
    notes' := notes + [Note(start, end, duration, noteInt, NoteName(noteInt), Mean(cents), std(cents))];
  }

  /** segment_notes_from_pitch: the scan, then one record per long enough segment. */
  method SegmentNotesFromPitch(times: seq<real>, f0: seq<Frame>, midi: seq<real>,
                               median: seq<real> -> real, std: seq<real> -> real)
    returns (notes: seq<Note>)
    requires |times| == |f0| && |midi| == |f0|
    ensures notes == NoteRecordsOf(times, f0, midi, median, std)
  {
    var segments := SegmentFrames(f0, midi);
    SegmentsIndexFrames(f0, midi);
    notes := [];
    var p := 0;
    while p < |segments|
      invariant p <= |segments|
      invariant notes == NotesFrom(times, midi, segments[..p], median, std)
    {
      assert segments[..p + 1][..p] == segments[..p];
      notes := AppendRecord(times, midi, segments[p], median, std, notes);
      p := p + 1;
    }
    assert segments[..p] == segments;
  }

  /** A segment becomes a note exactly when it lasts at least MinNoteDuration,
      from the time of its first frame to one hop past the time of its last. */
  lemma NoteTiming(times: seq<real>, midi: seq<real>, seg: seq<nat>,
                   median: seq<real> -> real, std: seq<real> -> real)
    requires |midi| == |times| && |seg| > 0
    requires forall k :: 0 <= k < |seg| ==> seg[k] < |times|
    ensures NoteOf(times, midi, seg, median, std).Some?
        <==> times[seg[|seg| - 1]] + Hop(times) - times[seg[0]] >= MinNoteDuration
    ensures NoteOf(times, midi, seg, median, std).Some? ==>
      var n := NoteOf(times, midi, seg, median, std).value;
      && n.start == times[seg[0]]
      && n.end == times[seg[|seg| - 1]] + Hop(times)
      && n.duration == n.end - n.start >= MinNoteDuration
  {
  }

  /** On an evenly spaced grid a segment of c consecutive frames lasts c hops,
      so it becomes a note exactly when c·hop reaches MinNoteDuration. */
  lemma UniformDuration(times: seq<real>, midi: seq<real>, seg: seq<nat>,
                        median: seq<real> -> real, std: seq<real> -> real)
    requires |midi| == |times| && |seg| > 0 && EvenlySpaced(times)
    requires seg == Range(seg[0], seg[0] + |seg|) && seg[0] + |seg| <= |times|
    ensures NoteOf(times, midi, seg, median, std).Some?
        <==> (|seg| as real) * Hop(times) >= MinNoteDuration
    ensures NoteOf(times, midi, seg, median, std).Some? ==>
      NoteOf(times, midi, seg, median, std).value.duration == (|seg| as real) * Hop(times)
  {
    NoteTiming(times, midi, seg, median, std);
    SegmentSpan(times, seg);
  }

  /** The note number is the median rounded half to even: within half a
      semitone of the median, even on a tie, and, for a bounded median, within the range of the
      segment's values widened by half a semitone; its name reads back to it. */
  lemma NoteMidi(times: seq<real>, midi: seq<real>, seg: seq<nat>,
                 median: seq<real> -> real, std: seq<real> -> real)
    requires |midi| == |times| && |seg| > 0
    requires forall k :: 0 <= k < |seg| ==> seg[k] < |times|
    requires NoteOf(times, midi, seg, median, std).Some?
    ensures var n := NoteOf(times, midi, seg, median, std).value; var med := median(Gather(midi, seg));
      && -0.5 <= med - n.midi as real <= 0.5
      && (med - n.midi as real == 0.5 || n.midi as real - med == 0.5 ==> n.midi % 2 == 0)
      && n.midi == RoundHalfEven(med)
      && ParseNoteName(n.name) == Some(n.midi)
      && (MedianBounded(median) ==>
            Min(Gather(midi, seg)) - 0.5 <= n.midi as real <= Max(Gather(midi, seg)) + 0.5)
  {
    var n := NoteOf(times, midi, seg, median, std).value;
    NoteNameRoundTrip(n.midi);
  }

  /** The sum of the cents offsets is a hundred times the sum of the offsets. */
  lemma {:induction false} SumCents(v: seq<real>, note: int)
    ensures Sum(Cents(v, note)) == (Sum(v) - (|v| as real) * (note as real)) * 100.0
    decreases |v|
  {
    if |v| > 0 {
      var init := v[..|v| - 1];
      SumCents(init, note);
      assert Cents(v, note)[..|v| - 1] == Cents(init, note);
    }
  }

  /** The mean of the cents offsets is a hundred times the distance from the
      note to the mean value. */
  lemma MeanCents(v: seq<real>, note: int)
    requires |v| > 0
    ensures Mean(Cents(v, note)) == (Mean(v) - note as real) * 100.0
  {
    SumCents(v, note);
    MeanShift(Sum(v), |v| as real, note as real);
  }

  /** The mean cents offset of a note is a hundred times the distance from the
      note number to the mean MIDI value of its frames. */
  lemma NoteCents(times: seq<real>, midi: seq<real>, seg: seq<nat>,
                  median: seq<real> -> real, std: seq<real> -> real)
    requires |midi| == |times| && |seg| > 0
    requires forall k :: 0 <= k < |seg| ==> seg[k] < |times|
    requires NoteOf(times, midi, seg, median, std).Some?
    ensures var n := NoteOf(times, midi, seg, median, std).value;
      n.centsOffMean == (Mean(Gather(midi, seg)) - n.midi as real) * 100.0
  {
    var n := NoteOf(times, midi, seg, median, std).value;
    MeanCents(Gather(midi, seg), n.midi);
  }

  lemma MeanShift(total: real, c: real, m: real)
    requires c > 0.0
    ensures (total - c * m) * 100.0 / c == (total / c - m) * 100.0
  {
    var q := total / c;
    assert total == q * c;
    assert (total - c * m) * 100.0 == c * ((q - m) * 100.0);
  }

  /** Each note ends no later than the next one starts. */
  predicate NoOverlap(notes: seq<Note>)
  {
    forall p, q :: 0 <= p < q < |notes| ==> notes[p].end <= notes[q].start
  }

  predicate EndBy(notes: seq<Note>, t: real)
  {
    forall p :: 0 <= p < |notes| ==> notes[p].end <= t
  }

  /** Dropping the last segment keeps the shape of the segment list. */
  lemma DropLast(segs: seq<seq<nat>>, n: nat)
    requires |segs| > 0 && FramesBelow(segs, n) && Contiguous(segs) && NonEmpty(segs) && InOrder(segs)
    ensures var init := segs[..|segs| - 1];
      FramesBelow(init, n) && Contiguous(init) && NonEmpty(init) && InOrder(init)
  {
  }

  /** The notes of all but the last segment end by the start of the last one. */
  lemma EarlierEndBy(times: seq<real>, midi: seq<real>, segs: seq<seq<nat>>,
                     median: seq<real> -> real, std: seq<real> -> real)
    requires |segs| > 0 && |midi| == |times| && FramesBelow(segs, |times|)
    requires NonEmpty(segs) && InOrder(segs)
    requires EvenlySpaced(times) && Hop(times) > 0.0
    requires |segs| > 1 ==> EndBy(NotesFrom(times, midi, segs[..|segs| - 1], median, std),
                                 times[Last(segs[|segs| - 2])] + Hop(times))
    ensures EndBy(NotesFrom(times, midi, segs[..|segs| - 1], median, std), times[segs[|segs| - 1][0]])
  {
    if |segs| > 1 {
      var y, a := Last(segs[|segs| - 2]), segs[|segs| - 1][0];
      assert y < a;
      Spaced(times, y, a);
    }
  }

  /** The notes do not overlap: on an evenly spaced time grid every note ends no
      later than the next one starts, since the segments come in frame order;
      and no note ends after one hop past the last frame of the last segment. */
  lemma {:induction false} NotesInOrder(times: seq<real>, midi: seq<real>, segs: seq<seq<nat>>,
                                        median: seq<real> -> real, std: seq<real> -> real)
    requires |midi| == |times| && FramesBelow(segs, |times|) && Contiguous(segs)
    requires NonEmpty(segs) && InOrder(segs)
    requires EvenlySpaced(times) && Hop(times) > 0.0
    ensures NoOverlap(NotesFrom(times, midi, segs, median, std))
    ensures |segs| > 0 ==>
      EndBy(NotesFrom(times, midi, segs, median, std), times[Last(segs[|segs| - 1])] + Hop(times))
    decreases |segs|
  {
    if |segs| == 0 {
      return;
    }
    var h := Hop(times);
    var init := segs[..|segs| - 1];
    var seg := segs[|segs| - 1];
    DropLast(segs, |times|);
    NotesInOrder(times, midi, init, median, std);
    var a, z := seg[0], Last(seg);
    assert seg[|seg| - 1] == a + (|seg| - 1);
    EarlierEndBy(times, midi, segs, median, std);
    if a < z {
      Spaced(times, a, z);
    }
    NoteTiming(times, midi, seg, median, std);
    var record := NoteOf(times, midi, seg, median, std);
    var before := NotesFrom(times, midi, init, median, std);
    assert NotesFrom(times, midi, segs, median, std)
        == if record.None? then before else before + [record.value];
    ExtendOrder(before, record, times[a], times[z] + h);
  }

  /** Appending a note that starts after every earlier one has ended keeps the
      notes from overlapping. */
  lemma ExtendOrder(before: seq<Note>, record: Option<Note>, start: real, bound: real)
    requires NoOverlap(before) && EndBy(before, start) && start <= bound
    requires record.Some? ==> record.value.start == start && record.value.end == bound
    ensures var notes := if record.None? then before else before + [record.value];
      NoOverlap(notes) && EndBy(notes, bound)
  {
  }

  /** With no voiced frame after frame 0 there is no note. */
  lemma NoVoicingNoNotes(times: seq<real>, f0: seq<Frame>, midi: seq<real>,
                         median: seq<real> -> real, std: seq<real> -> real)
    requires |times| == |f0| && |midi| == |f0|
    requires forall j :: 1 <= j < |f0| ==> f0[j].Unvoiced?
    ensures NoteRecordsOf(times, f0, midi, median, std) == []
  {
    NoSegmentWithoutVoicing(f0, midi);
  }

  /** The notes of segment_notes_from_pitch on a uniform grid do not overlap. */
  lemma RecordsInOrder(times: seq<real>, f0: seq<Frame>, midi: seq<real>,
                       median: seq<real> -> real, std: seq<real> -> real)
    requires |times| == |f0| && |midi| == |f0| && EvenlySpaced(times) && Hop(times) > 0.0
    ensures NoOverlap(NoteRecordsOf(times, f0, midi, median, std))
  {
    SegmentsIndexFrames(f0, midi);
    SegmentsAreLongChains(f0, midi);
    NotesInOrder(times, midi, Segments(f0, midi), median, std);
  }
}
