/** The one-off renaming script try3/test.py: synth samples stored under the wrong
    labels (`a1.wav`, `a#1.wav`, ...) are collected in pitch order and renamed to
    consecutive MIDI note names from `FIRST_CORRECT_NOTE` up. The directory listing is
    a parameter, and the moves are returned as (old path, new path) pairs. */
module SampleRename {
  import opened Wrappers
  import opened Text
  import opened Pitch

  const SAMPLES_DIR := "sounds/synth"
  const EXT := ".wav"
  const FIRST_CORRECT_NOTE := "a3"
  const FIRST_WRONG_NOTE := "a1"

  /** `note_order`: the order the files have on disk, starting at A. */
  const NoteOrder: seq<string> := ["a", "a#", "b", "c", "c#", "d", "d#", "e", "f", "f#", "g", "g#"]

  /** The `base` table of `note_to_midi`: semitones above C. */
  const NoteBase: map<string, int> := map[
    "c" := 0, "c#" := 1, "d" := 2, "d#" := 3, "e" := 4, "f" := 5,
    "f#" := 6, "g" := 7, "g#" := 8, "a" := 9, "a#" := 10, "b" := 11]

  /** `note_to_midi(note, octave)`; `None` where the lookup raises `KeyError`. */
  function NoteToMidi(note: string, octave: int): (r: Option<int>)
    ensures r.Some? <==> note in NoteBase
  {
    if note in NoteBase then Some((octave + 1) * 12 + NoteBase[note]) else None
  }

  /** `midi_to_note_name` as the script writes it: the name is taken from `note_order`,
      which starts at A rather than C. */
  function WrittenMidiToNoteName(m: int): string
  {
    NoteOrder[m % 12] + IntToDecimal(m / 12 - 1)
  }

  /** `int()` of one whitespace character raises: nothing is left after stripping. */
  lemma ParseSpaceChar(c: char)
    requires IsSpace(c)
    ensures ParseInt([c]) == None
  {
    var s := [c];
    assert s[1..] == [];
    assert StripLeft(s) == [];
    assert Trim(s) == [];
  }

  /** `int()` of one character that is neither whitespace nor a digit raises. */
  lemma ParseOtherChar(c: char)
    requires !IsSpace(c) && !IsDigit(c)
    ensures ParseInt([c]) == None
  {
    var s := [c];
    NoSpaceTrim(s);
    var body := s[SignLength(s)..];
    assert !IsDigitRun(body);
    assert ParseBody(body) == None;
  }

  /** `int()` of a single character reads exactly the decimal digits. */
  lemma ParseOneChar(c: char)
    ensures ParseInt([c]).Some? <==> IsDigit(c)
    ensures IsDigit(c) ==> ParseInt([c]) == Some(DigitValue(c))
  {
    if IsDigit(c) {
      assert DigitsValue([c]) == DigitsValue([]) * 10 + DigitValue(c);
      ParseUnsigned([c]);
    } else if IsSpace(c) {
      ParseSpaceChar(c);
    } else {
      ParseOtherChar(c);
    }
  }

  /** `parse_note(s)`: everything but the last character, lowered, and `int` of the
      last character. `None` where Python raises: fewer than two characters
      (`note_str[-2]`), or a last character that is not a digit. */
  function ParseNote(s: string): Option<(string, int)>
  {
    if |s| < 2 then None
    else if s[|s| - 2] == '#' then
      var name := s[..|s| - 1];
      match ParseInt([s[|s| - 1]])
      case None => None
      case Some(octv) => Some((ToLower(name), octv))
    else
      var name := s[..|s| - 1];
      match ParseInt([s[|s| - 1]])
      case None => None
      case Some(octv) => Some((ToLower(name), octv))
  }

  /** Both branches of `parse_note` do the same thing: the parse succeeds exactly on
      strings of two or more characters ending in a digit, and splits off that digit. */
  lemma ParseNoteSplits(s: string)
    ensures ParseNote(s).Some? <==> |s| >= 2 && IsDigit(s[|s| - 1])
    ensures ParseNote(s).Some? ==> ParseNote(s).value == (ToLower(s[..|s| - 1]), DigitValue(s[|s| - 1]))
  {
    if |s| >= 2 {
      ParseOneChar(s[|s| - 1]);
    }
  }

  /** The script's two labels: the samples are labelled from A1 (MIDI 33) but should be
      labelled from A3 (MIDI 57). */
  lemma ScriptStarts()
    ensures ParseNote(FIRST_WRONG_NOTE) == Some(("a", 1))
    ensures ParseNote(FIRST_CORRECT_NOTE) == Some(("a", 3))
    ensures NoteToMidi("a", 1) == Some(33) && NoteToMidi("a", 3) == Some(57)
  {
    ParseNoteSplits(FIRST_WRONG_NOTE);
    ParseNoteSplits(FIRST_CORRECT_NOTE);
    assert FIRST_WRONG_NOTE[..1] == "a" && FIRST_CORRECT_NOTE[..1] == "a";
    assert ToLower("a") == "a";
  }

  /** As written, the first target is not `FIRST_CORRECT_NOTE`: MIDI 57 is the A of
      octave 3, but the script names it "f#3". */
  lemma WrittenNameMisses()
    ensures NoteToMidi("a", 3) == Some(57)
    ensures WrittenMidiToNoteName(57) == "f#3"
    ensures WrittenMidiToNoteName(57) != FIRST_CORRECT_NOTE
  {
    assert IntToDecimal(3) == "3";
  }

  /** Names from C, as the sequencer's own `midi_to_note_name` spells them, invert
      `note_to_midi` for every pitch class and octave. */
  lemma CorrectedNameInverts(note: string, octave: int)
    requires note in NoteBase
    ensures MidiToNoteName(NoteToMidi(note, octave).value) == note + IntToDecimal(octave)
  {
    var m := NoteToMidi(note, octave).value;
    var b := NoteBase[note];
    assert 0 <= b < 12;
    assert m == octave * 12 + 12 + b;
    assert m % 12 == b && m / 12 == octave + 1;
    MidiToNoteNameSpelled(m);
    assert SequencerNames[b] == note;
  }

  /** The corrected naming gives the first target `FIRST_CORRECT_NOTE`. */
  lemma CorrectedFirstTarget()
    ensures MidiToNoteName(NoteToMidi("a", 3).value) == FIRST_CORRECT_NOTE
  {
    CorrectedNameInverts("a", 3);
    assert IntToDecimal(3) == "3";
  }

  /** The file `f"{note}{octv}{EXT}"` for note `k` of `note_order`. */
  function FileName(octave: int, k: int): string
    requires 0 <= k < 12
  {
    NoteOrder[k] + IntToDecimal(octave) + EXT
  }

  /** Every name the nested loops look for, octaves `lo .. hi - 1`, each in
      `note_order`. */
  function Candidates(lo: int, hi: int): (c: seq<string>)
    ensures lo <= hi ==> |c| == 12 * (hi - lo)
    decreases hi - lo
  {
    if hi <= lo then [] else Candidates(lo, hi - 1) + OctaveNames(hi - 1)
  }

  /** The names of one octave, in `note_order`. */
  function OctaveNames(octave: int): (c: seq<string>)
    ensures |c| == 12 && forall k :: 0 <= k < 12 ==> c[k] == FileName(octave, k)
  {
    seq(12, k requires 0 <= k < 12 => FileName(octave, k))
  }

  lemma {:induction false} CandidateAt(lo: int, hi: int, i: int)
    requires lo <= hi && 0 <= i < 12 * (hi - lo)
    ensures Candidates(lo, hi)[i] == FileName(lo + i / 12, i % 12)
    decreases hi - lo
  {
    var front := Candidates(lo, hi - 1);
    var last := OctaveNames(hi - 1);
    assert Candidates(lo, hi) == front + last;
    if i < |front| {
      CandidateAt(lo, hi - 1, i);
      assert Candidates(lo, hi)[i] == front[i];
    } else {
      var q := hi - 1 - lo;
      var k := i - 12 * q;
      DivShift(q, k);
      assert i == 12 * q + k;
      assert lo + i / 12 == hi - 1 && i % 12 == k;
      assert Candidates(lo, hi)[i] == last[k];
    }
  }

  lemma CandidatesSnoc(lo: int, o: int)
    requires lo <= o
    ensures Candidates(lo, o + 1) == Candidates(lo, o) + OctaveNames(o)
  {
  }

  /** Position `12 * q + k` is note `k` of octave `q`. */
  lemma DivShift(q: int, k: int)
    requires 0 <= k < 12
    ensures (12 * q + k) / 12 == q && (12 * q + k) % 12 == k
  {
  }

  /** The entries of `c` listed in `files`, in the order of `c`. */
  function Filter(c: seq<string>, files: seq<string>): (r: seq<string>)
    ensures |r| <= |c|
  {
    if c == [] then []
    else
      var n := |c| - 1;
      Filter(c[..n], files) + (if c[n] in files then [c[n]] else [])
  }

  lemma {:induction false} FilterAppend(a: seq<string>, b: seq<string>, files: seq<string>)
    ensures Filter(a + b, files) == Filter(a, files) + Filter(b, files)
    decreases |b|
  {
    if b != [] {
      var n := |b| - 1;
      assert (a + b)[..|a| + n] == a + b[..n];
      FilterAppend(a, b[..n], files);
    } else {
      assert a + b == a;
    }
  }

  lemma {:induction false} FilterMembers(c: seq<string>, files: seq<string>)
    ensures forall f :: f in Filter(c, files) <==> f in c && f in files
  {
    if c != [] {
      var n := |c| - 1;
      FilterMembers(c[..n], files);
      assert c == c[..n] + [c[n]];
    }
  }

  /** Where in `c` each entry of `Filter(c, files)` comes from. */
  ghost function FilterPositions(c: seq<string>, files: seq<string>): seq<int>
  {
    if c == [] then []
    else
      var n := |c| - 1;
      FilterPositions(c[..n], files) + (if c[n] in files then [n] else [])
  }

  /** Filtering keeps the order of `c`: the kept entries come from strictly
      increasing positions of `c`. */
  lemma {:induction false} FilterOrder(c: seq<string>, files: seq<string>)
    ensures var p, r := FilterPositions(c, files), Filter(c, files);
      |p| == |r| &&
      (forall i :: 0 <= i < |p| ==> 0 <= p[i] < |c| && c[p[i]] == r[i]) &&
      (forall i, j :: 0 <= i < j < |p| ==> p[i] < p[j])
  {
    if c != [] {
      var n := |c| - 1;
      FilterOrder(c[..n], files);
    }
  }

  /** Filtering a list without repeats gives a list without repeats. */
  lemma {:induction false} FilterDistinct(c: seq<string>, files: seq<string>)
    requires forall a, b :: 0 <= a < b < |c| ==> c[a] != c[b]
    ensures forall i, j :: 0 <= i < j < |Filter(c, files)| ==> Filter(c, files)[i] != Filter(c, files)[j]
  {
    if c != [] {
      var n := |c| - 1;
      var front := c[..n];
      FilterDistinct(front, files);
      FilterMembers(front, files);
      var prev := Filter(front, files);
      var r := Filter(c, files);
      assert r[..|prev|] == prev;
      assert c[n] !in front;
      forall i, j | 0 <= i < j < |r| ensures r[i] != r[j] {
        if j >= |prev| {
          assert r[i] == prev[i] && prev[i] in front;
        } else {
          assert r[i] == prev[i] && r[j] == prev[j];
        }
      }
    }
  }

  /** The nested loops of the script: for each octave from `wrong_oct` to 5 and each
      note of `note_order`, the file of that name when the directory lists it. */
  method FilesSorted(files: seq<string>, wrongOct: int) returns (sorted: seq<string>)
    ensures sorted == Filter(Candidates(wrongOct, 6), files)
  {
    sorted := [];
    var octv := wrongOct;
    while octv < 6
      invariant wrongOct <= octv <= (if wrongOct < 6 then 6 else wrongOct)
      invariant sorted == Filter(Candidates(wrongOct, octv), files)
    {
      var found := OctaveFiles(octv, files);
      OctaveDone(wrongOct, octv, files);
      assert OctaveNames(octv)[..12] == OctaveNames(octv);
      sorted := sorted + found;
      octv := octv + 1;
    }
    if wrongOct >= 6 {
      assert Candidates(wrongOct, octv) == [] == Candidates(wrongOct, 6);
    } else {
      assert octv == 6;
    }
  }

  /** The inner loop over `note_order` for one octave: the listed names of that octave. */
  method OctaveFiles(octv: int, files: seq<string>) returns (found: seq<string>)
    ensures found == Filter(OctaveNames(octv), files)
  {
    var names := OctaveNames(octv);
    found := [];
    var k := 0;
    while k < 12
      invariant 0 <= k <= 12
      invariant found == Filter(names[..k], files)
    {
      var fname := NoteOrder[k] + IntToDecimal(octv) + EXT;
      assert fname == names[k];
      FilterPrefix(names, k, files);
      if fname in files {
        found := found + [fname];
      }
      k := k + 1;
    }
    assert names[..12] == names;
  }

  lemma FilterPrefix(c: seq<string>, k: int, files: seq<string>)
    requires 0 <= k < |c|
    ensures Filter(c[..k + 1], files) == Filter(c[..k], files) + (if c[k] in files then [c[k]] else [])
  {
    assert c[..k + 1][..k] == c[..k];
  }

  lemma OctaveDone(lo: int, o: int, files: seq<string>)
    requires lo <= o
    ensures Filter(Candidates(lo, o + 1), files) == Filter(Candidates(lo, o), files) + Filter(OctaveNames(o)[..12], files)
  {
    CandidatesSnoc(lo, o);
    assert OctaveNames(o)[..12] == OctaveNames(o);
    FilterAppend(Candidates(lo, o), OctaveNames(o), files);
  }

  /** The sorted files are exactly the listed files named `note + octave + ".wav"` for
      a note of `note_order` and an octave from `wrong_oct` to 5. */
  lemma FilesSortedMembers(files: seq<string>, wrongOct: int, f: string)
    ensures f in Filter(Candidates(wrongOct, 6), files) <==>
      f in files && exists o, k :: wrongOct <= o < 6 && 0 <= k < 12 && f == FileName(o, k)
  {
    var c := Candidates(wrongOct, 6);
    FilterMembers(c, files);
    if exists o, k :: wrongOct <= o < 6 && 0 <= k < 12 && f == FileName(o, k) {
      var o, k :| wrongOct <= o < 6 && 0 <= k < 12 && f == FileName(o, k);
      CandidateOfFile(wrongOct, 6, o, k);
    }
    if f in c {
      FileOfCandidate(wrongOct, 6, f);
    }
  }

  /** Every name of an octave in range is looked for. */
  lemma {:induction false} CandidateOfFile(lo: int, hi: int, o: int, k: int)
    requires lo <= o < hi && 0 <= k < 12
    ensures FileName(o, k) in Candidates(lo, hi)
    decreases hi - lo
  {
    var last := OctaveNames(hi - 1);
    assert Candidates(lo, hi) == Candidates(lo, hi - 1) + last;
    if o < hi - 1 {
      CandidateOfFile(lo, hi - 1, o, k);
    } else {
      assert last[k] == FileName(o, k);
    }
  }

  /** Every name looked for is the name of a note in an octave in range. */
  lemma {:induction false} FileOfCandidate(lo: int, hi: int, f: string)
    requires f in Candidates(lo, hi)
    ensures exists o, k :: lo <= o < hi && 0 <= k < 12 && f == FileName(o, k)
    decreases hi - lo
  {
    assert lo < hi;
    var front := Candidates(lo, hi - 1);
    var last := OctaveNames(hi - 1);
    assert Candidates(lo, hi) == front + last;
    if f in front {
      FileOfCandidate(lo, hi - 1, f);
      var o, k :| lo <= o < hi - 1 && 0 <= k < 12 && f == FileName(o, k);
      assert lo <= o < hi;
    } else {
      assert f in last;
      var k :| 0 <= k < 12 && last[k] == f;
      assert f == FileName(hi - 1, k);
    }
  }

  /** A digit run followed by `.wav` determines the digits. */
  lemma DecimalSuffix(d1: string, d2: string)
    requires d1 + EXT == d2 + EXT
    ensures d1 == d2
  {
    assert |d1| == |d2|;
    assert d1 == (d1 + EXT)[..|d1|];
  }

  /** Each entry of `note_order` is one letter, or a letter and `#`. */
  lemma NoteShape(k: int)
    requires 0 <= k < 12
    ensures |NoteOrder[k]| == 1 || (|NoteOrder[k]| == 2 && NoteOrder[k][1] == '#')
    ensures NoteOrder[k] in NoteBase && NoteBase[NoteOrder[k]] == (k + 9) % 12
  {
  }

  /** A note label followed by a text that starts with a digit splits in one way
      only. */
  lemma LabelSplit(n1: string, t1: string, n2: string, t2: string)
    requires |n1| == 1 || (|n1| == 2 && n1[1] == '#')
    requires |n2| == 1 || (|n2| == 2 && n2[1] == '#')
    requires |t1| > 0 && IsDigit(t1[0]) && |t2| > 0 && IsDigit(t2[0])
    requires n1 + t1 == n2 + t2
    ensures n1 == n2 && t1 == t2
  {
    var s := n1 + t1;
    assert |n1| == |n2| by {
      if |n1| == 2 { assert s[1] == '#'; }
      if |n2| == 2 { assert s[1] == '#'; }
    }
    assert n1 == s[..|n1|] == n2;
    assert t1 == s[|n1|..] == t2;
  }

  /** A file name splits into its `note_order` entry and its octave digits. */
  lemma FileNameParts(o1: int, k1: int, o2: int, k2: int)
    requires 0 <= o1 && 0 <= o2 && 0 <= k1 < 12 && 0 <= k2 < 12
    requires FileName(o1, k1) == FileName(o2, k2)
    ensures NoteOrder[k1] == NoteOrder[k2] && IntToDecimal(o1) == IntToDecimal(o2)
  {
    var d1, d2 := IntToDecimal(o1), IntToDecimal(o2);
    var n1, n2 := NoteOrder[k1], NoteOrder[k2];
    assert n1 + d1 + EXT == n1 + (d1 + EXT);
    assert n2 + d2 + EXT == n2 + (d2 + EXT);
    NoteShape(k1);
    NoteShape(k2);
    LabelSplit(n1, d1 + EXT, n2, d2 + EXT);
    DecimalSuffix(d1, d2);
  }

  /** `note_order` names twelve different notes. */
  lemma NoteOrderInjective(k1: int, k2: int)
    requires 0 <= k1 < 12 && 0 <= k2 < 12
    requires NoteOrder[k1] == NoteOrder[k2]
    ensures k1 == k2
  {
    NoteShape(k1);
    NoteShape(k2);
    assert (k1 + 9) % 12 == (k2 + 9) % 12;
  }

  /** Different (octave, note) pairs name different files, once octaves are not
      negative. */
  lemma FileNameInjective(o1: int, k1: int, o2: int, k2: int)
    requires 0 <= o1 && 0 <= o2 && 0 <= k1 < 12 && 0 <= k2 < 12
    requires FileName(o1, k1) == FileName(o2, k2)
    ensures o1 == o2 && k1 == k2
  {
    FileNameParts(o1, k1, o2, k2);
    NoteOrderInjective(k1, k2);
    IntToDecimalRoundTrip(o1);
    IntToDecimalRoundTrip(o2);
  }

  /** Positions of a list built twelve to an octave. */
  lemma DivTwelve(a: int, b: int)
    requires 0 <= a < b
    ensures a == 12 * (a / 12) + a % 12 && 0 <= a % 12 < 12
    ensures a / 12 < b / 12 || (a / 12 == b / 12 && a % 12 < b % 12)
  {
  }

  /** No name is looked for twice. */
  lemma {:induction false} CandidatesDistinct(lo: int, hi: int)
    requires 0 <= lo
    ensures forall a, b :: 0 <= a < b < |Candidates(lo, hi)| ==> Candidates(lo, hi)[a] != Candidates(lo, hi)[b]
    decreases hi - lo
  {
    if lo < hi {
      CandidatesDistinct(lo, hi - 1);
      forall a, b | 0 <= a < b < |Candidates(lo, hi)| ensures Candidates(lo, hi)[a] != Candidates(lo, hi)[b] {
        CandidatePairDistinct(lo, hi, Candidates(lo, hi - 1), a, b);
      }
    }
  }

  /** One more octave keeps the names distinct: its names differ from each other and
      from every name of the earlier octaves. */
  lemma CandidatePairDistinct(lo: int, hi: int, front: seq<string>, a: int, b: int)
    requires 0 <= lo < hi && front == Candidates(lo, hi - 1)
    requires forall a, b :: 0 <= a < b < |front| ==> front[a] != front[b]
    requires 0 <= a < b < |Candidates(lo, hi)|
    ensures Candidates(lo, hi)[a] != Candidates(lo, hi)[b]
  {
    var last := OctaveNames(hi - 1);
    var c := Candidates(lo, hi);
    assert c == front + last;
    if b < |front| {
      assert c[a] == front[a] && c[b] == front[b];
    } else {
      var kb := b - |front|;
      assert c[b] == last[kb] == FileName(hi - 1, kb);
      if a < |front| {
        assert c[a] == front[a];
        FileOfCandidate(lo, hi - 1, front[a]);
        var o, k :| lo <= o < hi - 1 && 0 <= k < 12 && front[a] == FileName(o, k);
        NamesDiffer(o, k, hi - 1, kb);
      } else {
        var ka := a - |front|;
        assert c[a] == last[ka] == FileName(hi - 1, ka);
        NamesDiffer(hi - 1, ka, hi - 1, kb);
      }
    }
  }

  /** Different (octave, note) pairs name different files. */
  lemma NamesDiffer(o1: int, k1: int, o2: int, k2: int)
    requires 0 <= o1 && 0 <= o2 && 0 <= k1 < 12 && 0 <= k2 < 12
    requires o1 != o2 || k1 != k2
    ensures FileName(o1, k1) != FileName(o2, k2)
  {
    if FileName(o1, k1) == FileName(o2, k2) {
      FileNameInjective(o1, k1, o2, k2);
    }
  }

  /** `f` is `FileName(o, k)` and `g` is a later octave, or the same octave and a later
      note of `note_order`. */
  ghost predicate LabelBefore(f: string, g: string)
  {
    exists o1, k1, o2, k2 :: 0 <= k1 < 12 && 0 <= k2 < 12 && f == FileName(o1, k1) && g == FileName(o2, k2) &&
      (o1 < o2 || (o1 == o2 && k1 < k2))
  }

  /** The sorted files hold no name twice and run by octave, then by `note_order`. */
  lemma FilesSortedOrdered(files: seq<string>, wrongOct: int)
    requires 0 <= wrongOct
    ensures var s := Filter(Candidates(wrongOct, 6), files);
      forall i, j :: 0 <= i < j < |s| ==> s[i] != s[j] && LabelBefore(s[i], s[j])
  {
    var c := Candidates(wrongOct, 6);
    var s := Filter(c, files);
    CandidatesDistinct(wrongOct, 6);
    FilterDistinct(c, files);
    FilterOrder(c, files);
    var p := FilterPositions(c, files);
    forall i, j | 0 <= i < j < |s| ensures LabelBefore(s[i], s[j]) {
      CandidatesBefore(wrongOct, 6, p[i], p[j]);
    }
  }

  /** An earlier candidate names an earlier octave, or an earlier note of the same one. */
  lemma CandidatesBefore(lo: int, hi: int, a: int, b: int)
    requires lo <= hi && 0 <= a < b < |Candidates(lo, hi)|
    ensures LabelBefore(Candidates(lo, hi)[a], Candidates(lo, hi)[b])
  {
    DivTwelve(a, b);
    DivTwelve(b, b + 1);
    CandidateAt(lo, hi, a);
    CandidateAt(lo, hi, b);
    var oa, ka, ob, kb := lo + a / 12, a % 12, lo + b / 12, b % 12;
    assert oa < ob || (oa == ob && ka < kb);
  }

  /** The rename loop: the `i`-th sorted file moves to the name of MIDI
      `correct_start + i`, given by `name` (the script passes `WrittenMidiToNoteName`),
      both inside `SAMPLES_DIR`. */
  method RenamePlan(sorted: seq<string>, correctStart: int, name: int -> string) returns (moves: seq<(string, string)>)
    ensures |moves| == |sorted|
    ensures forall i :: 0 <= i < |sorted| ==>
      moves[i] == (Join(SAMPLES_DIR, sorted[i]), Join(SAMPLES_DIR, name(correctStart + i) + EXT))
  {
    moves := [];
    var i := 0;
    while i < |sorted|
      invariant 0 <= i <= |sorted| && |moves| == i
      invariant forall j :: 0 <= j < i ==>
        moves[j] == (Join(SAMPLES_DIR, sorted[j]), Join(SAMPLES_DIR, name(correctStart + j) + EXT))
    {
      var midi := correctStart + i;
      var newName := name(midi) + EXT;
      moves := moves + [(Join(SAMPLES_DIR, sorted[i]), Join(SAMPLES_DIR, newName))];
      i := i + 1;
    }
  }

  /** With the corrected naming the targets are the labels of consecutive MIDI notes:
      target `i` is read back by `note_to_midi` as `correct_start + i`. */
  lemma CorrectedTargetsConsecutive(note: string, octave: int, i: nat)
    requires note in NoteBase
    ensures var m := NoteToMidi(note, octave).value + i;
      NoteToMidi(SequencerNames[m % 12], m / 12 - 1) == Some(m)
  {
    var m := NoteToMidi(note, octave).value + i;
    var r := m % 12;
    assert 0 <= r < 12;
    assert NoteBase[SequencerNames[r]] == r;
    assert (m / 12 - 1 + 1) * 12 + r == m;
  }
}
