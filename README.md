# Vocal pitch cleanup and note segmentation, in Dafny

This project models the numeric core of a singing-transcription pipeline. A
pitch contour is a series of frames. A frame is either voiced, carrying a
frequency in Hz, or unvoiced (numpy's NaN). The model covers the passes that
clean such a contour, the passes that cut it into notes, and the resynthesis of
a contour as a sine wave:

- `Frames` (frames.dfy): the frame type, and exact cents comparisons without
  logarithms. For a positive ratio r, |1200·log2 r| > 1200/k exactly when
  r^k > 2 or r^k < 1/2. The module also has maximal runs of frames of one
  voicing, and the single property the model assumes of an abstract median.
- `GapBridge` (gap_bridge.dfy): `bridge_short_gaps`. It holds the preceding
  pitch across short interior unvoiced gaps.
- `BeatStabilizer` (beat_stabilizer.dfy): `enforce_beatwise_pitch`. Each beat
  interval is snapped to its median, copied, or filled with the last pitch.
- `PitchPasses` (pitch_passes.dfy): the array passes of `extract_pitch_vocal`.
  These are truncation to a common length, the energy/confidence gate, the
  in-place 600-cent jump limiter, run-wise smoothing and the pYIN veto.
- `Resynthesis` (resynthesis.dfy): `resynthesize_f0`. Each frame fills its own
  hop-slice of a zero buffer, and a running phase is carried across frames.
- `NoteNames` (note_names.dfy): `_midi_to_note_name` and its inverse, and
  Python's `round` (ties to even).
- `NoteScan` and `NoteRecords` (note_scan.dfy, note_records.dfy):
  `segment_notes_from_pitch`. NoteScan is the run state machine; NoteRecords
  builds the note records.
- `LegacyPitch` and `LegacyNotes` (legacy_pitch.dfy, legacy_notes.dfy): the
  older helpers embedded as text in generate_project.py. These are
  `correct_octave_jumps`, `remove_iqr` and `segment_notes`.

Each loop of the source is a Dafny method. The method is proved equal to a
reference function: `Bridged`, `Stabilized`, `Limited`, `Smoothed`,
`Vetoed`, `Synthesized`, `Segments`, `NoteRecordsOf`, `OctaveCorrected`,
`VoicedRuns` or `LegacyNotesOf`. What the source promises is then proved as
lemmas about those functions.

Statistics and transcendental functions stay abstract and are passed in as
function parameters:

- median and nanmedian;
- the cents standard deviation of a beat interval;
- nanstd;
- percentile;
- `savgol_filter`;
- `sin`.

A lemma that needs a property of one of them states that property as a
precondition. The properties used are:

- a median or percentile lies between the least and greatest value;
- `savgol_filter` keeps length;
- `sin` lies in [-1, 1] and has period 2π.

The per-frame MIDI values (`librosa.hz_to_midi`) are an input sequence,
because the source computes them up front.

Where the docstring and the code disagree, the model follows the code. The
docstring of `enforce_beatwise_pitch` says it does not invent pitch where
there is silence. The code nevertheless sets every frame of a stable interval
to the median, including its NaN frames. `IntervalOutcome` states this.

## Model

| member | source | states |
|---|---|---|
| Frames.CentsAbove | src/pitch.py:64-67 | the log2-free form of `abs(1200 * np.log2(a / b)) > 1200 / k`; a frame is never beyond any threshold of itself, and beyond excludes within |
| Frames.CentsBelow | src/postprocess.py:81-83 | the log2-free form of `abs(1200 * np.log2(a / b)) < 1200 / k`; a non-zero frame is within every threshold of itself, and two frames within a threshold are non-zero and of one sign |
| Frames.CentsSymmetric | src/pitch.py:99-102 | for positive frequencies the cents comparisons do not depend on which frame is the reference, since log2(b/a) is the negation of log2(a/b) |
| GapBridge.BridgeShortGaps | src/postprocess.py:4-27 | the loop over a copy returns exactly the reference bridging `Bridged`; the input sequence is a value and is never changed |
| GapBridge.GapEnd | src/postprocess.py:15-17 | starting from an unvoiced frame that opens a run, the inner loop stops at the end of that maximal unvoiced run |
| GapBridge.Hold | src/postprocess.py:21 | `f0[i:j] = hold` writes hold over [i, j) and leaves every other frame as it was |
| GapBridge.GapFrames | src/postprocess.py:19-21 | every frame of a maximal unvoiced run is bridged the same way: to f0[i-1] when the run passes the fill test, otherwise to NaN |
| GapBridge.BridgedRun | src/postprocess.py:19-21 | a maximal NaN run [i, j) is filled entirely with f0[i-1], which is voiced, exactly when j-i <= max_gap, i > 0 and j < len; otherwise it stays entirely NaN |
| GapBridge.BridgeWritesOnlyGaps | src/postprocess.py:13-25 | voiced frames keep their value; a frame that changes was NaN and becomes voiced |
| GapBridge.BridgedRunsFailTest | src/postprocess.py:12-25 | after one pass, every remaining NaN run fails the fill test |
| GapBridge.BridgeIdempotent | src/postprocess.py:4-27 | bridging a bridged series changes nothing |
| GapBridge.BridgeExamples | src/postprocess.py:19-21 | a 2-frame interior gap is held at the pre-gap value, while a 5-frame gap with max_gap 3 stays NaN |
| BeatStabilizer.FramesFromSpec | src/postprocess.py:51 | `np.where((times >= start) & (times < end))` lists exactly the frames whose time lies in [start, end), in increasing order |
| BeatStabilizer.LookAhead | src/postprocess.py:75-79 | a voiced result is f0[j+1] for the FIRST j of the interval, in index order, whose successor exists and is voiced; an unvoiced result means no f0[j+1] exists or is voiced |
| BeatStabilizer.FindResume | src/postprocess.py:75-79 | the look-ahead loop with its early break returns the first voiced successor, as `LookAhead` defines it |
| BeatStabilizer.WriteAll | src/postprocess.py:64 | `f0_out[idx] = v` sets exactly the frames listed in idx to v |
| BeatStabilizer.CopyBack | src/postprocess.py:68 | `f0_out[idx] = f0[idx]` copies exactly the listed frames from the input |
| BeatStabilizer.StabilizeInterval | src/postprocess.py:48-84 | one iteration maps (f0_out, last_pitch) to the interval step `Step` of the previous state |
| BeatStabilizer.EnforceBeatwisePitch | src/postprocess.py:30-86 | the loop returns exactly `Stabilized`, a series of the input's length |
| BeatStabilizer.PrefixLeaves | src/postprocess.py:47-84 | intervals that do not contain a frame never write it |
| BeatStabilizer.FramesOutsideBeatsUnchanged | src/postprocess.py:44-53 | a frame whose time lies in no beat interval is returned unchanged |
| BeatStabilizer.OtherIntervalMisses | src/postprocess.py:47-51 | with sorted beats, a frame of interval k lies in no other interval |
| BeatStabilizer.StepOutcome | src/postprocess.py:51-84 | what one iteration does to a frame of its own interval: skip, snap to the median, copy, fill with last_pitch, or leave |
| BeatStabilizer.IntervalOutcome | src/postprocess.py:47-84 | with sorted beats, a frame of interval k in the output is: the input if the interval has fewer than min_frames frames; the median of the voiced values if the cents spread is below max_flat_cents, NaN frames included; the input if the spread is larger; last_pitch for an all-NaN interval when last_pitch is set and the first voiced successor is within 200 cents; the input otherwise |
| BeatStabilizer.IntervalIsConsecutive | src/postprocess.py:51 | with frame times in order, the frames of a beat interval are consecutive indices |
| BeatStabilizer.LookAheadPastRun | src/postprocess.py:75-79 | over consecutive unvoiced frames the look-ahead finds only the frame just after the last of them |
| BeatStabilizer.SilentLookAhead | src/postprocess.py:72-79 | with frame times in order, the look-ahead of an all-unvoiced interval is the frame just after the interval, or unvoiced when the interval ends the series |
| BeatStabilizer.SilentIntervalOutcome | src/postprocess.py:70-83 | with frame times and beats in order, a frame of a non-skipped all-unvoiced interval takes last_pitch exactly when last_pitch is set and the frame just after the interval is voiced within 200 cents of it; otherwise it is returned unchanged |
| BeatStabilizer.LastPitchIsLatestMedian | src/postprocess.py:45-69 | last_pitch is unset exactly when no earlier interval was both not skipped and voiced; otherwise it is the median of the most recent such interval, stable or expressive |
| BeatStabilizer.StepKeepsPositive | src/postprocess.py:58-84 | with a bounded median, one interval keeps every voiced frequency and last_pitch positive |
| BeatStabilizer.StabilizeKeepsPositive | src/postprocess.py:44-86 | with a bounded median and positive input frequencies, every voiced output frequency is positive |
| PitchPasses.CommonLength | src/pitch.py:48 | n is at most each length and equal to one of them |
| PitchPasses.Gate | src/pitch.py:55-56 | frame i is voiced exactly when rms[i] > 0.15 and conf[i] > 0.6, and then it carries f0_raw[i] unchanged |
| PitchPasses.LimitStep | src/pitch.py:61-76 | the limiter never changes a frame's voicing |
| PitchPasses.LimitedAt | src/pitch.py:60-76 | frame 0 is kept, and every later frame is limited against its already-limited predecessor |
| PitchPasses.LimitJumps | src/pitch.py:60-76 | the in-place loop leaves the array equal to `Limited` of its old contents |
| PitchPasses.LimitedKeepsVoicing | src/pitch.py:60-76 | no frame changes voicing |
| PitchPasses.LimitedChangesOnlyJumps | src/pitch.py:61-67 | a rewritten frame and its limited predecessor are voiced and more than 600 cents apart |
| PitchPasses.RepairRatio | src/pitch.py:69-76 | halving brings a ratio in (1.9, 2.1) into (0.95, 1.05); doubling brings a ratio in (0.45, 0.55) into (0.9, 1.1); the clamp gives exactly 1 |
| PitchPasses.LimitStepWithinTritone | src/pitch.py:64-76 | a repaired frame is positive and within 600 cents of its predecessor |
| PitchPasses.LimitedKeepsPositive | src/pitch.py:60-76 | positive frequencies stay positive |
| PitchPasses.LimitedWithinTritone | src/pitch.py:60-76 | for positive input, every adjacent voiced pair of the output is within 600 cents |
| PitchPasses.LimiterUsesLimitedPredecessor | src/pitch.py:64-76 | [100, 300, 290] becomes [100, 100, 100]: the limited predecessor, not the original, decides the next frame |
| PitchPasses.VoicedRunEnd | src/pitch.py:85 | from the first frame of a voiced run, the scan stops at the end of that maximal run |
| PitchPasses.WriteRun | src/pitch.py:88-90 | `f0_smooth[seg] = w` writes the run's slice and nothing else |
| PitchPasses.RunSmoothed | src/pitch.py:86-90 | every frame of a maximal voiced run receives the run's output: the filtered values of a run of at least 9 frames, the broadcast median otherwise |
| PitchPasses.SmoothRuns | src/pitch.py:79-90 | the run-by-run loop returns exactly `Smoothed` |
| PitchPasses.SmoothedKeepsVoicing | src/pitch.py:79-90 | smoothing keeps every frame's voicing |
| PitchPasses.SmoothedRun | src/pitch.py:87-90 | a run shorter than 9 frames becomes its median throughout; a longer run takes the filter's output position by position |
| PitchPasses.SmoothingIsRunLocal | src/pitch.py:84-90 | two series with the same voicing that agree on a run are smoothed alike on it, whatever the other runs hold |
| PitchPasses.PyinVeto | src/pitch.py:93-103 | the veto loop returns exactly `Vetoed` |
| PitchPasses.VetoOnlyNulls | src/pitch.py:95-103 | a frame keeps its value or becomes NaN; it becomes NaN exactly when it and the pYIN frame are voiced, they are more than 120 cents apart and conf < 0.75 |
| PitchPasses.ExtractPitchVocal | src/pitch.py:47-111 | the result has the common length n and is the veto of the smoothing of the limiting of the gate, all on the truncated series; the confidence and the pYIN contour kept for debugging are truncated to n |
| PitchPasses.FinalVoicedPassedGate | src/pitch.py:55-103 | a frame voiced in the final contour passed the energy and confidence gate |
| Resynthesis.FMod | src/synthesis.py:14 | Python's float `%` by a positive modulus lies in [0, m) |
| Resynthesis.PhaseAt | src/synthesis.py:5-14 | the running phase always lies in [0, 2π) |
| Resynthesis.Synthesized | src/synthesis.py:4 | the buffer has len(f0)·hop samples |
| Resynthesis.WriteFrame | src/synthesis.py:11-12 | a sounding frame writes its tone over its own slice and no other sample |
| Resynthesis.SliceSamples | src/synthesis.py:12 | the samples of slice i are frame i's tone when it sounds, zeros otherwise |
| Resynthesis.WriteSlice | src/synthesis.py:8-12 | one iteration writes only slice [i·hop, (i+1)·hop); a silent frame leaves it zero |
| Resynthesis.ResynthesizeF0 | src/synthesis.py:3-15 | the loop over a zero buffer returns exactly `Synthesized` |
| Resynthesis.SilentFrame | src/synthesis.py:8-10 | a frame that is NaN or <= 0 Hz leaves its slice zero and resets the phase to 0 |
| Resynthesis.SilentInputSilentBuffer | src/synthesis.py:4-10 | an input with no sounding frame gives an all-zero buffer of len(f0)·hop samples |
| Resynthesis.SamplesBounded | src/synthesis.py:3-12 | with sin in [-1, 1], every sample has magnitude at most amp |
| Resynthesis.PhaseContinuity | src/synthesis.py:11-14 | with a 2π-periodic sin, when frame i+1 sounds the same frequency as frame i, it continues frame i's sinusoid without a phase jump |
| LegacyPitch.OctaveFixAt | generate_project.py:67-73 | a frame keeps its voicing, and changes exactly when it and its original predecessor are voiced and their ratio lies in (1.9, 2.1) or (0.45, 0.55) |
| LegacyPitch.CorrectOctaveJumps | generate_project.py:63-74 | the loop over a copy returns exactly `OctaveCorrected` |
| LegacyPitch.OctaveCorrection | generate_project.py:64-73 | voicing and frame 0 are kept; frame i changes exactly when its ratio to the ORIGINAL predecessor lies in (1.9, 2.1) or (0.45, 0.55); the corrected frame is then within (0.9, 1.1) of that predecessor |
| LegacyPitch.OctaveExamples | generate_project.py:65-73 | [100, 200, 400] becomes [100, 100, 200]; [100, 200] becomes [100, 100]; [200, 95] becomes [200, 190]; [100, 150] is unchanged |
| LegacyPitch.RemoveIqr | generate_project.py:91-101 | the result has the input's length; a frame stays as it is or a voiced frame becomes NaN, so no value is altered; with fewer than 4 voiced values the input is returned as it is |
| LegacyPitch.IqrOnlyNulls | generate_project.py:91-101 | a frame stays or becomes NaN; it changes exactly when at least 4 values are voiced and it is a voiced value outside [q1 - 1.5·iqr, q3 + 1.5·iqr] |
| LegacyPitch.IqrKeepsConstant | generate_project.py:94-100 | with a bounded percentile, a series whose voiced values are all equal is returned unchanged |
| NoteNames.NoteName | src/notes.py:9-10 | a name is a letter A to G, has '#' as its second character exactly for the five black keys (m mod 12 in {1, 3, 6, 8, 10}), and ends in a digit of the octave |
| NoteNames.ParseDecimalOf | src/notes.py:10 | `str` of an int reads back to that int |
| NoteNames.PitchClassAt | src/notes.py:5-6 | each name of the table is found at its own position, and only the sharps have a second character |
| NoteNames.NoteNameRoundTrip | src/notes.py:9-10 | reading a note name back gives its MIDI number: the pitch class is m mod 12 and the octave is m div 12 - 1, both floored |
| NoteNames.NoteNameInjective | src/notes.py:9-10 | different MIDI numbers have different names |
| NoteNames.NoteNameExamples | generate_project.py:148-149 | 69 is "A4", 60 is "C4", and -1 is "B-2" (floored octave) |
| NoteNames.RoundHalfEven | src/notes.py:71 | Python's round is within a half of x, and even when x is halfway |
| NoteNames.RoundHalfEvenUnique | src/notes.py:71 | any integer with those two properties is `RoundHalfEven(x)` |
| NoteNames.RoundExamples | src/notes.py:71 | 2.5 rounds to 2, 3.5 to 4, -0.5 to 0, 68.6 to 69, -2.7 to -3 |
| NoteScan.SegmentFrames | src/notes.py:27-56 | the scan from frame 1 and the final flush return exactly `Segments` |
| NoteScan.StepKeeps | src/notes.py:34-53 | one scan step keeps the scan invariant: the open run is the chain ending at the previous frame, and the closed segments are long chains, in order, covering every long chain before the open run |
| NoteScan.ScanInvHolds | src/notes.py:34-53 | the scan invariant holds after every prefix of frames |
| NoteScan.FlushKeeps | src/notes.py:55-56 | after the final flush, segments are long chains in order and cover every frame with a long chain |
| NoteScan.SegmentsAreLongChains | src/notes.py:34-56 | every segment is a maximal chain of at least 5 consecutive voiced frames from frame 1 on, with neighbours within 1.5 semitones; segments are disjoint and in frame order; a frame is in a segment exactly when its chain has at least 5 frames |
| NoteScan.NoSegmentWithoutVoicing | src/notes.py:34-56 | frame 0 is never in a segment; with no voiced frame after frame 0 there is no segment |
| NoteRecords.SegmentsIndexFrames | src/notes.py:34-56 | every segment is non-empty, lists consecutive frames, and indexes the input |
| NoteRecords.NotesFrom | src/notes.py:62-83 | at most one note per segment |
| NoteRecords.SegmentNotesFromPitch | src/notes.py:13-85 | the two loops return exactly `NoteRecordsOf`: the records of the scan's segments, in order |
| NoteRecords.NoteTiming | src/notes.py:60-68 | a segment becomes a note exactly when times[last] + hop - times[first] >= 0.25; start, end = times[last] + hop, and duration = end - start |
| NoteRecords.UniformDuration | src/notes.py:60-68 | on an evenly spaced grid, a segment of c frames lasts c·hop and is kept exactly when c·hop >= 0.25 |
| NoteRecords.NoteMidi | src/notes.py:70-80 | the note number is Python's round of the median: within half a semitone of it, and even when the median lies halfway between two integers; with a bounded median it lies in [min - 0.5, max + 0.5] of the segment's values; its name reads back to it |
| NoteRecords.MeanCents | src/notes.py:73-81 | the mean of (v - note)·100 is (mean(v) - note)·100 |
| NoteRecords.NoteCents | src/notes.py:73-81 | cents_off_mean is a hundred times the distance from the note number to the segment's mean MIDI value |
| NoteRecords.NotesInOrder | src/notes.py:62-83 | for segments in frame order on an evenly spaced grid, each note ends no later than the next starts |
| NoteRecords.NoVoicingNoNotes | src/notes.py:34-85 | with no voiced frame after frame 0 the result is empty |
| NoteRecords.RecordsInOrder | src/notes.py:13-85 | on an evenly spaced grid the notes of segment_notes_from_pitch do not overlap |
| LegacyNotes.SplitVoiced | generate_project.py:161-173 | the split loop and flush return exactly `VoicedRuns` |
| LegacyNotes.SplitInvHolds | generate_project.py:164-170 | after every prefix, the open run is the voiced run ending at the previous frame, and the closed segments are maximal voiced runs in order covering every earlier voiced frame |
| LegacyNotes.VoicedRunsPartition | generate_project.py:164-173 | the segments are exactly the maximal voiced runs, frame 0 included, in frame order; a frame is in a segment exactly when it is voiced |
| LegacyNotes.RunsIndexFrames | generate_project.py:164-173 | every run is non-empty, consecutive, and indexes the input |
| LegacyNotes.SegmentNotes | generate_project.py:151-191 | the function returns exactly `LegacyNotesOf`: [] for fewer than 3 frames, otherwise one record per long enough voiced run |
| LegacyNotes.LegacyTiming | generate_project.py:177-181 | a run becomes a note exactly when t[last] - t[first] >= 0.25, with no hop added; a single-frame run never does |
| LegacyNotes.LegacyDuration | generate_project.py:177-181 | on an evenly spaced grid, a run of c frames lasts (c-1)·hop, one hop less than segment_notes_from_pitch counts |
| LegacyNotes.LegacyMidi | generate_project.py:182-188 | the note number is Python's round of the median: within half a semitone of it, and even when the median lies halfway between two integers; its name reads back to it |
| LegacyNotes.LegacyNotesInOrder | generate_project.py:175-191 | with strictly increasing times, the notes are disjoint and in time order |
| LegacyNotes.LegacyNotesShape | generate_project.py:151-191 | no note for fewer than 3 frames or without a voiced frame; disjoint notes when times strictly increase |

## Left out

- Audio I/O, source separation, beat tracking, plotting, the HTTP/UI layers and the generator script's file writing are not part of this model.
- The pitch trackers and the energy measure (`crepe.predict`, `librosa.pyin`, `librosa.feature.rms` and its normalisation) are external. Their outputs are inputs here.
- `librosa.times_like` (src/pitch.py:105) is external. The frame times are an input of the note segmenters.
- The pYIN range estimate (src/pitch.py:30-35) computes values the function never uses, so it is not modelled.
- `extract_pitch_crepe` in generate_project.py, apart from its embedded `correct_octave_jumps` and `remove_iqr`, is not modelled. Its scipy passes (`interp1d`, `medfilt`, `savgol_filter`) are left out.
- `librosa.hz_to_midi` is not modelled. The per-frame MIDI values are an input sequence of the same length as f0.
- Floating point is not modelled: every value is an exact real, and the buffer's float32 storage is not modelled either. Cents thresholds are decided exactly, through powers of the ratio instead of log2.
- Signed zeros and infinities are not modelled. A zero divisor in a cents comparison follows numpy's +inf/NaN outcome for positive, zero and negative numerators. `LegacyPitch.OctaveFixAt` treats a zero predecessor as a ratio outside both octave bands.
- Median, nanmedian, percentile, nanstd, the beat interval's cents standard deviation, `savgol_filter` and `sin` are abstract function parameters. Their results are only as constrained as the lemma preconditions state.
- `pitch_data.get("pitch_smooth", pitch_data["pitch"])` in the embedded `segment_notes` is not modelled; f0 is passed in directly.
- Requirements that the series have equal lengths (times, f0, midi; conf with f0_raw in `ExtractPitchVocal`) are preconditions. The source assumes them rather than checking them.
- Resynthesis.ResynthesizeF0: requires sr > 0, since the source divides by the sample rate.
- NoteRecords.NotesInOrder: assumes evenly spaced frame times with a positive hop. The source takes the hop from the first two frame times and never checks the grid.
- NoteRecords.UniformDuration: assumes evenly spaced frame times with a positive hop, for the same reason.
- NoteRecords.RecordsInOrder: assumes evenly spaced frame times with a positive hop, for the same reason.
- LegacyNotes.LegacyNotesInOrder: assumes strictly increasing frame times.
- LegacyNotes.LegacyDuration: assumes evenly spaced frame times.
- BeatStabilizer.SilentIntervalOutcome: assumes frame times in non-decreasing order, as `librosa.times_like` delivers them, so that an interval's frames are consecutive.
- BeatStabilizer.IntervalOutcome: assumes sorted beat times, as the beat tracker delivers them. With unsorted beats a frame can lie in several intervals, and the last one wins.
- NoteRecords.Note: cents_off_std is the abstract std of the cents offsets. The mean is computed exactly because every frame of a segment is voiced.
