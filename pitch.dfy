/** Pitch naming: the sample-file names of the synth folder (try3 sequencer), the
    sidebar labels of the 88-key piano roll (try3) and of the 24-row piano roll (main). */
module Pitch {
  import opened Text

  const SOUNDS_DIR := "sounds"

  /** MIDI number of piano-roll row 0 (C8); row r is MIDI 108 - r. */
  const TOP_MIDI := 108

  /** Lower-case pitch classes from C, as the synth sample files are named. */
  const SequencerNames: seq<string> := ["c", "c#", "d", "d#", "e", "f", "f#", "g", "g#", "a", "a#", "b"]

  /** Upper-case pitch classes from C, as the piano-roll sidebars label rows. */
  const PitchClasses: seq<string> := ["C", "C#", "D", "D#", "E", "F", "F#", "G", "G#", "A", "A#", "B"]

  /** `midi_to_note_name` of the sequencer: pitch class, then octave `m // 12 - 1`, lowered. */
  function MidiToNoteName(m: int): string
  {
    ToLower(SequencerNames[m % 12] + IntToDecimal(m / 12 - 1))
  }

  /** `synth_sample_path`: `sounds/<folder>/<note name>.wav`, joined as `os.path.join` does. */
  function SynthSamplePath(m: int, folder: string): string
  {
    Join3(SOUNDS_DIR, folder, MidiToNoteName(m) + ".wav")
  }

  /** `note_name` of the 88-key piano roll: row r names MIDI 108 - r. */
  function RollNoteName(absRow: int): string
  {
    var midi := TOP_MIDI - absRow;
    PitchClasses[midi % 12] + IntToDecimal(midi / 12 - 1)
  }

  /** `note_name` of the main piano roll with `notes` rows: row `notes - 1` is C3. */
  function BasicNoteName(notes: int, row: int): string
  {
    var k := notes - 1 - row;
    PitchClasses[k % 12] + IntToDecimal(k / 12 + 3)
  }

  /** `is_minor_key`: the row's pitch class is a black key. */
  predicate IsMinorKey(notes: int, row: int)
  {
    (notes - 1 - row) % 12 in {1, 3, 6, 8, 10}
  }

  lemma NoUpperInDecimal(n: int)
    ensures forall k :: 0 <= k < |IntToDecimal(n)| ==> !('A' <= IntToDecimal(n)[k] <= 'Z')
    ensures forall k :: 0 <= k < |IntToDecimal(n)| ==> IntToDecimal(n)[k] != '/' && IntToDecimal(n)[k] != '#'
  {
    var s := IntToDecimal(n);
    if n < 0 {
      forall k | 0 <= k < |s| ensures s[k] == '-' || IsDigit(s[k]) {
        if k > 0 { assert s[k] == s[1..][k - 1]; }
      }
    }
  }

  /** The `.lower()` in `midi_to_note_name` changes nothing: the name is the pitch class
      from the lower-case table followed by the octave `m // 12 - 1`. */
  lemma MidiToNoteNameSpelled(m: int)
    ensures MidiToNoteName(m) == SequencerNames[m % 12] + IntToDecimal(m / 12 - 1)
  {
    var s := SequencerNames[m % 12] + IntToDecimal(m / 12 - 1);
    NoUpperInDecimal(m / 12 - 1);
    ToLowerUnchanged(s);
  }

  /** Lowering a sidebar label gives the sample-name spelling of the same class. */
  lemma LowerClass(i: int, oct: string)
    requires 0 <= i < 12
    ensures ToLower(PitchClasses[i] + oct) == ToLower(SequencerNames[i] + oct)
  {
    assert ToLower(PitchClasses[i]) == SequencerNames[i];
    ToLowerAppend(PitchClasses[i], oct);
    ToLowerAppend(SequencerNames[i], oct);
  }

  /** The sample the sequencer loads for MIDI m is the lower-cased piano-roll label of
      row 108 - m, so playback and the editor agree on every pitch. */
  lemma SequencerAgreesWithRoll(m: int)
    ensures MidiToNoteName(m) == ToLower(RollNoteName(TOP_MIDI - m))
  {
    assert TOP_MIDI - (TOP_MIDI - m) == m;
    LowerClass(m % 12, IntToDecimal(m / 12 - 1));
  }

  lemma SequencerNameExamples()
    ensures MidiToNoteName(108) == "c8"
    ensures MidiToNoteName(21) == "a0"
    ensures MidiToNoteName(57) == "a3"
  {
    MidiToNoteNameSpelled(108);
    MidiToNoteNameSpelled(21);
    MidiToNoteNameSpelled(57);
  }

  lemma RollNameExamples()
    ensures RollNoteName(0) == "C8"
    ensures RollNoteName(87) == "A0"
  {
  }

  lemma BasicNameExamples()
    ensures BasicNoteName(24, 0) == "B4"
    ensures BasicNoteName(24, 23) == "C3"
  {
  }

  /** Text free of separators followed by a plain component is a plain component. */
  lemma PlainAppend(a: string, b: string)
    requires forall k :: 0 <= k < |a| ==> a[k] != '/'
    requires Plain(b)
    ensures Plain(a + b)
  {
    var s := a + b;
    forall k | 0 <= k < |s| ensures s[k] != '/' {
      if k < |a| { assert s[k] == a[k]; } else { assert s[k] == b[k - |a|]; }
    }
  }

  /** A pitch class followed by separator-free octave text and `.wav` is plain. */
  lemma PlainLabel(i: int, oct: string)
    requires 0 <= i < 12
    requires forall k :: 0 <= k < |oct| ==> oct[k] != '/'
    ensures Plain(SequencerNames[i] + oct + ".wav")
  {
    var pc := SequencerNames[i];
    assert Plain(".wav");
    PlainAppend(oct, ".wav");
    assert forall k :: 0 <= k < |pc| ==> pc[k] != '/';
    PlainAppend(pc, oct + ".wav");
    assert pc + (oct + ".wav") == pc + oct + ".wav";
  }

  /** A synth sample's file name holds no separator. */
  lemma PlainSampleName(m: int)
    ensures Plain(MidiToNoteName(m) + ".wav")
  {
    MidiToNoteNameSpelled(m);
    NoUpperInDecimal(m / 12 - 1);
    PlainLabel(m % 12, IntToDecimal(m / 12 - 1));
  }

  /** Joining a plain folder and file name under `sounds`. */
  lemma SamplePathOf(folder: string, file: string)
    requires Plain(folder) && Plain(file)
    ensures Join3(SOUNDS_DIR, folder, file) == "sounds/" + folder + "/" + file
  {
    assert Plain(SOUNDS_DIR);
    Join3Plain(SOUNDS_DIR, folder, file);
  }

  /** With plain folder names the synth path is `sounds/<folder>/<name>.wav`. */
  lemma SynthSamplePathPlain(m: int, folder: string)
    requires Plain(folder)
    ensures SynthSamplePath(m, folder) == "sounds/" + folder + "/" + MidiToNoteName(m) + ".wav"
  {
    var name := MidiToNoteName(m);
    PlainSampleName(m);
    SamplePathOf(folder, name + ".wav");
    assert "sounds/" + folder + "/" + (name + ".wav") == "sounds/" + folder + "/" + name + ".wav";
  }

  /** The black keys are exactly the sharp pitch classes. */
  lemma SharpClass(i: int)
    requires 0 <= i < 12
    ensures i in {1, 3, 6, 8, 10} <==> '#' in PitchClasses[i]
  {
  }

  /** A label is a sharp exactly when its pitch class is, since octaves hold no `#`. */
  lemma SharpLabel(pc: string, oct: string)
    requires forall k :: 0 <= k < |oct| ==> oct[k] != '#'
    ensures '#' in pc + oct <==> '#' in pc
  {
    assert '#' !in oct;
  }

  /** A piano-roll row is drawn as a black key exactly when its label is a sharp. */
  lemma MinorKeyIsSharp(notes: int, row: int)
    ensures IsMinorKey(notes, row) <==> '#' in BasicNoteName(notes, row)
  {
    var k := notes - 1 - row;
    NoUpperInDecimal(k / 12 + 3);
    SharpClass(k % 12);
    SharpLabel(PitchClasses[k % 12], IntToDecimal(k / 12 + 3));
  }
}
