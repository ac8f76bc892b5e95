/**
 * MIDI note numbers, their names and Python's `round` (src/notes.py, _midi_to_note_name;
 * the copy embedded in generate_project.py is the same function).
 *
 * The name of note m is the pitch class `NAMES[m mod 12]` followed by the
 * octave `m div 12 - 1`, both with Python's floor semantics. For the divisor 12
 * Dafny's Euclidean `%` and `/` agree with Python's, so no adjustment is needed.
 */
module NoteNames {

  datatype Option<T> = None | Some(value: T)

  const PitchClasses: seq<string> := ["C", "C#", "D", "D#", "E", "F", "F#", "G", "G#", "A", "A#", "B"]

  /** The decimal digits of n, most significant first (Python's `str` of a non-negative int). */
  function NatDigits(n: nat): (s: string)
    ensures |s| > 0
    ensures forall p :: 0 <= p < |s| ==> '0' <= s[p] <= '9'
  {
    var d := ['0' + (n % 10) as char];
    if n < 10 then d else NatDigits(n / 10) + d
  }

  /** Python's `str` of an int: a minus sign before the digits of a negative number. */
  function Decimal(n: int): string
  {
    if n < 0 then "-" + NatDigits(-n) else NatDigits(n)
  }

  /** _midi_to_note_name. A name is a letter A to G, a sharp exactly for the
      five black keys, and the octave, which ends in a digit. */
  function NoteName(m: int): (name: string)
    ensures |name| >= 2 && 'A' <= name[0] <= 'G'
    ensures name[1] == '#' <==> m % 12 in {1, 3, 6, 8, 10}
    ensures '0' <= name[|name| - 1] <= '9'
  {
    var k := m % 12;
    var d := Decimal(m / 12 - 1);
    DecimalStart(m / 12 - 1);
    PitchClassAt(k);
    PitchClasses[k] + d
  }

  /** Reads a non-empty string of decimal digits. */
  function ParseDigits(s: string): Option<nat>
  {
    if |s| == 0 || !('0' <= s[|s| - 1] <= '9') then None
    else
      var d := (s[|s| - 1] - '0') as nat;
      if |s| == 1 then Some(d)
      else match ParseDigits(s[..|s| - 1])
        case None => None
        case Some(h) => Some(10 * h + d)
  }

  /** Reads an optionally negative decimal integer. */
  function ParseDecimal(s: string): Option<int>
  {
    if |s| > 0 && s[0] == '-' then
      match ParseDigits(s[1..])
        case None => None
        case Some(n) => Some(-(n as int))
    else
      match ParseDigits(s)
        case None => None
        case Some(n) => Some(n)
  }

  /** The position of a pitch-class name in the table. */
  function ClassIndex(c: string): Option<nat>
  {
    if c in PitchClasses then
      Some(FindClass(c, 0))
    else None
  }

  function FindClass(c: string, from: nat): (k: nat)
    requires from <= |PitchClasses| && c in PitchClasses[from..]
    ensures from <= k < |PitchClasses| && PitchClasses[k] == c
    decreases |PitchClasses| - from
  {
    if PitchClasses[from] == c then from else FindClass(c, from + 1)
  }

  /** Reads a note name back into its MIDI number: a letter, an optional sharp,
      then the octave. */
  function ParseNoteName(name: string): Option<int>
  {
    var split := if |name| >= 2 && name[1] == '#' then 2 else 1;
    if |name| < split then None
    else match (ClassIndex(name[..split]), ParseDecimal(name[split..]))
      case (Some(k), Some(octave)) => Some(12 * (octave + 1) + k)
      case _ => None
  }

  lemma {:induction false} ParseNatDigits(n: nat)
    ensures ParseDigits(NatDigits(n)) == Some(n)
    decreases n
  {
    var s := NatDigits(n);
    if n >= 10 {
      ParseNatDigits(n / 10);
      assert s[..|s| - 1] == NatDigits(n / 10);
    }
  }

  lemma ParseDecimalOf(n: int)
    ensures ParseDecimal(Decimal(n)) == Some(n)
  {
    if n < 0 {
      ParseNatDigits(-n);
      assert Decimal(n)[1..] == NatDigits(-n);
    } else {
      ParseNatDigits(n);
    }
  }

  /** Each pitch class is found at its own position and starts with a letter
      A to G; only the five black keys are sharps, with '#' as their second
      character. */
  lemma PitchClassAt(k: nat)
    requires k < 12
    ensures ClassIndex(PitchClasses[k]) == Some(k)
    ensures |PitchClasses[k]| == 1 || (|PitchClasses[k]| == 2 && PitchClasses[k][1] == '#')
    ensures 'A' <= PitchClasses[k][0] <= 'G'
    ensures |PitchClasses[k]| == 2 <==> k in {1, 3, 6, 8, 10}
  {
    var c := PitchClasses[k];
    assert c in PitchClasses;
    match k
    case 0 => case 1 => case 2 => case 3 => case 4 => case 5 =>
    case 6 => case 7 => case 8 => case 9 => case 10 => case 11 =>
  }

  /** A decimal starts with a minus sign or a digit and ends with a digit. */
  lemma DecimalStart(n: int)
    ensures |Decimal(n)| > 0 && (Decimal(n)[0] == '-' || '0' <= Decimal(n)[0] <= '9')
    ensures '0' <= Decimal(n)[|Decimal(n)| - 1] <= '9'
  {
  }

  /** A pitch class followed by a decimal that does not start with '#' is read
      back as the pitch class's position and the decimal's value. */
  lemma ParseJoined(k: nat, d: string)
    requires k < 12 && |d| > 0 && d[0] != '#' && ParseDecimal(d).Some?
    ensures ParseNoteName(PitchClasses[k] + d) == Some(12 * (ParseDecimal(d).value + 1) + k)
  {
    var c := PitchClasses[k];
    PitchClassAt(k);
    var name := c + d;
    assert name[..|c|] == c;
    assert name[|c|..] == d;
  }

  /** The name determines the note: reading a name back gives the MIDI number. */
  lemma NoteNameRoundTrip(m: int)
    ensures ParseNoteName(NoteName(m)) == Some(m)
  {
    var octave := m / 12 - 1;
    var d := Decimal(octave);
    assert NoteName(m) == PitchClasses[m % 12] + d;
    ParseDecimalOf(octave);
    assert d[0] != '#' by { DecimalStart(octave); }
    ParseJoined(m % 12, d);
    assert 12 * (octave + 1) + m % 12 == m;
  }

  /** Different notes have different names. */
  lemma NoteNameInjective(m: int, n: int)
    requires NoteName(m) == NoteName(n)
    ensures m == n
  {
    NoteNameRoundTrip(m);
    NoteNameRoundTrip(n);
  }

  /** Concert A is "A4", middle C is "C4", and the octave of a negative number
      is floored: -1 is "B-2". */
  lemma NoteNameExamples()
    ensures NoteName(69) == "A4"
    ensures NoteName(60) == "C4"
    ensures NoteName(-1) == "B-2"
  {
    assert Decimal(4) == "4";
    assert Decimal(-2) == "-2";
  }

  /** Python's `round` on a float: to the nearest integer, ties to the even one. */
  function RoundHalfEven(x: real): (n: int)
    ensures (n as real) - 0.5 <= x <= (n as real) + 0.5
    ensures (x - n as real == 0.5 || n as real - x == 0.5) ==> n % 2 == 0
  {
    var f := x.Floor;
    var d := x - f as real;
    if d < 0.5 then f
    else if d > 0.5 then f + 1
    else if f % 2 == 0 then f
    else f + 1
  }

  /** The nearest integer, with ties to even, is unique: any integer within a
      half of x that is even whenever x is halfway is RoundHalfEven(x). */
  lemma RoundHalfEvenUnique(x: real, m: int)
    requires (m as real) - 0.5 <= x <= (m as real) + 0.5
    requires (x - m as real == 0.5 || m as real - x == 0.5) ==> m % 2 == 0
    ensures m == RoundHalfEven(x)
  {
  }

  lemma RoundExamples()
    ensures RoundHalfEven(2.5) == 2 && RoundHalfEven(3.5) == 4 && RoundHalfEven(-0.5) == 0
    ensures RoundHalfEven(68.6) == 69 && RoundHalfEven(-2.7) == -3
  {
    RoundHalfEvenUnique(2.5, 2);
    RoundHalfEvenUnique(3.5, 4);
    RoundHalfEvenUnique(-0.5, 0);
    RoundHalfEvenUnique(68.6, 69);
    RoundHalfEvenUnique(-2.7, -3);
  }
}
