/**
 * Phase-continuous resynthesis of a pitch contour (src/synthesis.py, resynthesize_f0).
 *
 * The buffer has `hop` samples per frame and starts all zero. A silent frame
 * (unvoiced or not above 0 Hz) leaves its slice zero and resets the running
 * phase; a sounding frame writes `amp·sin(2π·f·t + phase)` over its own slice
 * and advances the phase by 2π·f·hop/sr modulo 2π. `sin` stays abstract.
 */
module Resynthesis {
  import opened Frames

  /** numpy's `np.pi`, the double closest to π. */
  const Pi: real := 3.141592653589793
  const TwoPi: real := 2.0 * Pi

  /** Python's float `%` with a positive modulus: the remainder in [0, m) that
      differs from x by a whole number of m. */
  function FMod(x: real, m: real): (r: real)
    requires m > 0.0
    ensures 0.0 <= r < m
  {
    FloorBounds(x, m);
    x - m * ((x / m).Floor as real)
  }

  /** m·⌊x/m⌋ is the greatest multiple of m not above x. */
  lemma FloorBounds(x: real, m: real)
    requires m > 0.0
    ensures m * ((x / m).Floor as real) <= x < m * ((x / m).Floor as real) + m
  {
    var q := x / m;
    var f := q.Floor as real;
    assert x == m * q;
    ScaleLe(m, f, q);
    ScaleLt(m, q, f + 1.0);
    assert m * (f + 1.0) == m * f + m;
    assert m * q < m * f + m;
    assert x < m * f + m;
  }

  lemma ScaleLe(m: real, a: real, b: real)
    requires m > 0.0 && a <= b
    ensures m * a <= m * b
  {
    assert m * b - m * a == m * (b - a);
  }

  lemma ScaleLt(m: real, a: real, b: real)
    requires m > 0.0 && a < b
    ensures m * a < m * b
  {
    assert m * b - m * a == m * (b - a);
    ProductPositive(m, b - a);
  }

  lemma ProductPositive(a: real, b: real)
    requires a > 0.0 && b > 0.0
    ensures a * b > 0.0
  {
  }

  /** A frame the synthesiser sounds: voiced and above 0 Hz. */
  predicate Sounding(f: Frame)
  {
    f.Voiced? && f.hz > 0.0
  }

  /** The phase a sounding frame of f Hz advances over hop samples: 2π·f·hop/sr. */
  function Advance(f: real, hop: nat, sr: real): real
    requires sr > 0.0
  {
    TwoPi * f * (hop as real) / sr
  }

  /** The phase the loop holds when it reaches frame i. */
  function PhaseAt(f0: seq<Frame>, hop: nat, sr: real, i: nat): (p: real)
    requires i <= |f0| && sr > 0.0
    ensures 0.0 <= p < TwoPi
  {
    if i == 0 then 0.0
    else
      var prev := PhaseAt(f0, hop, sr, i - 1);
      if Sounding(f0[i - 1]) then FMod(prev + Advance(f0[i - 1].hz, hop, sr), TwoPi) else 0.0
  }

  /** Sample index m lies in slice m / hop, at offset m % hop. */
  lemma SliceOf(m: nat, hop: nat, n: nat)
    requires m < n * hop
    ensures hop > 0 && m / hop < n && m % hop < hop
  {
  }

  /** The samples i·hop .. i·hop + hop - 1 form slice i. */
  lemma InSlice(i: nat, hop: nat, k: nat)
    requires k < hop
    ensures (i * hop + k) / hop == i && (i * hop + k) % hop == k
  {
    var m := i * hop + k;
    var q, r := m / hop, m % hop;
    var d := q - i;
    assert d * hop == k - r by {
      assert m == q * hop + r;
      assert d * hop == q * hop - i * hop;
    }
  }

  lemma SliceEnd(i: nat, hop: nat, n: nat)
    requires i < n
    ensures i * hop + hop <= n * hop
  {
    assert (i + 1) * hop <= n * hop;
  }

  /** Sample k of a frame at f Hz starting at `phase`: amp·sin(2π·f·k/sr + phase). */
  function Tone(amp: real, sin: real -> real, f: real, sr: real, phase: real, k: int): real
    requires sr > 0.0
  {
    amp * sin(TwoPi * f * ((k as real) / sr) + phase)
  }

  /** Sample k of frame i's slice: its tone when it sounds, zero otherwise. */
  function FrameSample(f0: seq<Frame>, hop: nat, sr: real, amp: real, sin: real -> real, i: nat, k: int): real
    requires sr > 0.0 && i < |f0|
  {
    if Sounding(f0[i]) then Tone(amp, sin, f0[i].hz, sr, PhaseAt(f0, hop, sr, i), k) else 0.0
  }

  /** Sample m of the output buffer, which lies in slice m / hop. */
  function SampleAt(f0: seq<Frame>, hop: nat, sr: real, amp: real, sin: real -> real, m: nat): real
    requires sr > 0.0 && m < |f0| * hop
  {
    SliceOf(m, hop, |f0|);
    FrameSample(f0, hop, sr, amp, sin, m / hop, m % hop)
  }

  /** The reference definition of resynthesize_f0. */
  function Synthesized(f0: seq<Frame>, hop: nat, sr: real, amp: real, sin: real -> real): (y: seq<real>)
    requires sr > 0.0
    ensures |y| == |f0| * hop
  {
    seq(|f0| * hop, m requires 0 <= m < |f0| * hop => SampleAt(f0, hop, sr, amp, sin, m))
  }

  /** `y[start : start + hop] = amp * np.sin(2π·f·t + phase)`: the frame writes
      its own slice and no other sample. */
  method WriteFrame(y: array<real>, start: nat, hop: nat, f: real, sr: real, amp: real, phase: real,
                    sin: real -> real)
    requires sr > 0.0 && start + hop <= y.Length
    modifies y
    ensures forall m :: 0 <= m < start ==> y[m] == old(y[m])
    ensures forall m :: start <= m < start + hop ==> y[m] == Tone(amp, sin, f, sr, phase, m - start)
    ensures forall m :: start + hop <= m < y.Length ==> y[m] == old(y[m])
  {
    var k := 0;
    while k < hop
      invariant 0 <= k <= hop
      invariant forall m :: 0 <= m < start ==> y[m] == old(y[m])
      invariant forall m :: start <= m < start + k ==> y[m] == Tone(amp, sin, f, sr, phase, m - start)
      invariant forall m :: start + k <= m < y.Length ==> y[m] == old(y[m])
    {
      y[start + k] := Tone(amp, sin, f, sr, phase, k);
      k := k + 1;
    }
  }

  /** Slice i of the reference output, samples start .. start + hop - 1 with
      start = i·hop: frame i's tone when it sounds, zeros otherwise. */
  lemma SliceSamples(f0: seq<Frame>, hop: nat, sr: real, amp: real, sin: real -> real, i: nat, start: nat)
    requires sr > 0.0 && i < |f0| && start == i * hop
    ensures start + hop <= |f0| * hop
    ensures forall m :: start <= m < start + hop ==>
      SampleAt(f0, hop, sr, amp, sin, m) == FrameSample(f0, hop, sr, amp, sin, i, m - start)
  {
    SliceEnd(i, hop, |f0|);
    forall m | start <= m < start + hop
      ensures SampleAt(f0, hop, sr, amp, sin, m) == FrameSample(f0, hop, sr, amp, sin, i, m - start)
    {
      InSlice(i, hop, m - start);
    }
  }

  /** The slice write of one iteration of the frame loop: a sounding frame i
      writes its tone over the slice that starts at sample `start` = i·hop, a
      silent one leaves it zero. */
  method WriteSlice(buf: array<real>, f0: seq<Frame>, hop: nat, sr: real, amp: real,
                    sin: real -> real, i: nat, start: nat, phase: real)
    requires sr > 0.0 && i < |f0| && start + hop <= buf.Length
    requires phase == PhaseAt(f0, hop, sr, i)
    requires forall m :: start <= m < buf.Length ==> buf[m] == 0.0
    modifies buf
    ensures forall m :: 0 <= m < start ==> buf[m] == old(buf[m])
    ensures forall m :: start <= m < start + hop ==> buf[m] == FrameSample(f0, hop, sr, amp, sin, i, m - start)
    ensures forall m :: start + hop <= m < buf.Length ==> buf[m] == 0.0
  {
    var f := f0[i];
    if f.Voiced? && f.hz > 0.0 {
      WriteFrame(buf, start, hop, f.hz, sr, amp, phase, sin);
    }
  }

  /** The phase update of one iteration of the frame loop: reset by a silent
      frame, advanced by 2π·f·hop/sr modulo 2π by a sounding one. */
  method AdvancePhase(f0: seq<Frame>, hop: nat, sr: real, i: nat, phase: real) returns (next: real)
    requires sr > 0.0 && i < |f0| && phase == PhaseAt(f0, hop, sr, i)
    ensures next == PhaseAt(f0, hop, sr, i + 1)
  {
    var f := f0[i];
    if f.Unvoiced? || f.hz <= 0.0 {
      next := 0.0;
    } else {
      next := FMod(phase + Advance(f.hz, hop, sr), TwoPi);
    }
  }

  /** resynthesize_f0: a zero buffer of |f0|·hop samples filled frame by frame. */
  method ResynthesizeF0(f0: seq<Frame>, sr: real, hop: nat, amp: real, sin: real -> real)
    returns (y: seq<real>)
    requires sr > 0.0
    ensures y == Synthesized(f0, hop, sr, amp, sin)
  {
    var n := |f0|;
    var buf := new real[n * hop](_ => 0.0);
    var phase := 0.0;
    var i, start := 0, 0;
    while i < n
      invariant 0 <= i <= n && start == i * hop
      invariant phase == PhaseAt(f0, hop, sr, i)
      invariant forall m :: 0 <= m < start ==> buf[m] == SampleAt(f0, hop, sr, amp, sin, m)
      invariant forall m :: start <= m < buf.Length ==> buf[m] == 0.0
    {
      SliceSamples(f0, hop, sr, amp, sin, i, start);
      WriteSlice(buf, f0, hop, sr, amp, sin, i, start, phase);
      phase := AdvancePhase(f0, hop, sr, i, phase);
      i, start := i + 1, start + hop;
      assert start == i * hop;
    }
    y := buf[..];
  }

  /** A silent frame leaves its slice zero and resets the phase. */
  lemma SilentFrame(f0: seq<Frame>, hop: nat, sr: real, amp: real, sin: real -> real, i: nat, k: nat)
    requires sr > 0.0 && i < |f0| && k < hop && !Sounding(f0[i])
    ensures i * hop + k < |f0| * hop
    ensures Synthesized(f0, hop, sr, amp, sin)[i * hop + k] == 0.0
    ensures PhaseAt(f0, hop, sr, i + 1) == 0.0
  {
    SliceEnd(i, hop, |f0|);
    InSlice(i, hop, k);
  }

  /** An input with no sounding frame gives an all-zero buffer of |f0|·hop samples. */
  lemma SilentInputSilentBuffer(f0: seq<Frame>, hop: nat, sr: real, amp: real, sin: real -> real)
    requires sr > 0.0 && forall i :: 0 <= i < |f0| ==> !Sounding(f0[i])
    ensures Synthesized(f0, hop, sr, amp, sin) == seq(|f0| * hop, _ => 0.0)
  {
    var y := Synthesized(f0, hop, sr, amp, sin);
    forall m | 0 <= m < |f0| * hop ensures y[m] == 0.0 {
      SliceOf(m, hop, |f0|);
    }
  }

  /** `sin` maps into [-1, 1]. */
  ghost predicate SinBounded(sin: real -> real)
  {
    forall x :: -1.0 <= sin(x) <= 1.0
  }

  /** Every sample has magnitude at most amp. */
  lemma SamplesBounded(f0: seq<Frame>, hop: nat, sr: real, amp: real, sin: real -> real, m: nat)
    requires sr > 0.0 && amp >= 0.0 && SinBounded(sin) && m < |f0| * hop
    ensures -amp <= Synthesized(f0, hop, sr, amp, sin)[m] <= amp
  {
    SliceOf(m, hop, |f0|);
    var i := m / hop;
    assert Synthesized(f0, hop, sr, amp, sin)[m] == SampleAt(f0, hop, sr, amp, sin, m);
    if Sounding(f0[i]) {
      var x := TwoPi * f0[i].hz * (((m % hop) as real) / sr) + PhaseAt(f0, hop, sr, i);
      ScaledBound(amp, sin(x));
    }
  }

  lemma ScaledBound(amp: real, s: real)
    requires amp >= 0.0 && -1.0 <= s <= 1.0
    ensures -amp <= amp * s <= amp
  {
    assert amp - amp * s == amp * (1.0 - s);
    assert amp + amp * s == amp * (1.0 + s);
  }

  /** x shifted by n whole turns. */
  function Turn(x: real, n: int): real
  {
    x + (n as real) * TwoPi
  }

  /** `sin` has period 2π. */
  ghost predicate Periodic(sin: real -> real)
  {
    forall x, n :: sin(Turn(x, n)) == sin(x)
  }

  /** Advancing over hop samples and then k more is advancing over hop + k. */
  lemma AdvanceSplit(f: real, hop: nat, k: nat, sr: real)
    requires sr > 0.0
    ensures TwoPi * f * (((hop + k) as real) / sr) == Advance(f, hop, sr) + TwoPi * f * ((k as real) / sr)
  {
    var c := TwoPi * f;
    var a, b := (hop as real) / sr, (k as real) / sr;
    assert ((hop + k) as real) / sr == a + b by {
      assert (a + b) * sr == (hop as real) + (k as real);
    }
    assert c * (a + b) == c * a + c * b;
    assert Advance(f, hop, sr) == c * a by {
      assert c * (hop as real) == (c * a) * sr;
    }
  }

  /** Two tones whose arguments differ by whole turns agree. */
  lemma ToneTurns(amp: real, sin: real -> real, f: real, sr: real, p: real, q: real, j: int, k: int, n: int)
    requires sr > 0.0 && Periodic(sin)
    requires TwoPi * f * ((j as real) / sr) + q == Turn(TwoPi * f * ((k as real) / sr) + p, n)
    ensures Tone(amp, sin, f, sr, q, j) == Tone(amp, sin, f, sr, p, k)
  {
    var x := TwoPi * f * ((k as real) / sr) + p;
    assert sin(Turn(x, n)) == sin(x);
  }

  /** Phase continuity: when frames i and i+1 sound the same frequency, frame
      i+1 continues frame i's sinusoid: its sample k is the value frame i's tone
      takes hop + k samples after frame i starts. */
  lemma PhaseContinuity(f0: seq<Frame>, hop: nat, sr: real, amp: real, sin: real -> real, i: nat, k: nat)
    requires sr > 0.0 && Periodic(sin) && i + 1 < |f0| && k < hop
    requires Sounding(f0[i]) && f0[i + 1] == f0[i]
    ensures (i + 1) * hop + k < |f0| * hop
    ensures Synthesized(f0, hop, sr, amp, sin)[(i + 1) * hop + k]
         == Tone(amp, sin, f0[i].hz, sr, PhaseAt(f0, hop, sr, i), hop + k)
  {
    var start := (i + 1) * hop;
    SliceSamples(f0, hop, sr, amp, sin, i + 1, start);
    var f := f0[i].hz;
    var p := PhaseAt(f0, hop, sr, i);
    var a := Advance(f, hop, sr);
    var n := ((p + a) / TwoPi).Floor;
    assert PhaseAt(f0, hop, sr, i + 1) == p + a - TwoPi * (n as real);
    AdvanceSplit(f, hop, k, sr);
    var x := TwoPi * f * (((hop + k) as real) / sr) + p;
    assert Turn(x, -n) == TwoPi * f * ((k as real) / sr) + PhaseAt(f0, hop, sr, i + 1);
    ToneTurns(amp, sin, f, sr, p, PhaseAt(f0, hop, sr, i + 1), k, hop + k, -n);
    assert Synthesized(f0, hop, sr, amp, sin)[start + k] == FrameSample(f0, hop, sr, amp, sin, i + 1, k);
  }
}
