/** What one tick of the try3 sequencer triggers, what its sound cache holds, and
    what its exporter renders, as functions of the track rows (try3/sequencer.py).

    A row is seen through a `RowView`: its mode, mute flag, step row, the piano-roll
    notes the tick reads (the open panel's, else the row's saved ones), the folder
    and file picked in its dropdowns, and whether a piano-roll panel is open for it. Loading audio is abstracted by sets of paths:
    `loadable` (pygame opens the file), `readable` (the file exists and pydub decodes
    it) and `decodable` (pydub decodes it, for the exporter). The tick functions take the
    naming of synth samples as a parameter `synth`; the sequencer passes
    `Pitch.SynthSamplePath`, and the lemmas here hold for any naming. */
module SequencerTick {
  import opened Wrappers
  import opened Text
  import opened Pitch
  import opened Timing
  import opened Notes
  import opened Render

  datatype RowView = RowView(isPianoRoll: bool, muted: bool, grid: seq<int>, notes: seq<Note>, folder: string, file: string, hasPanel: bool)

  /** A sound started by a tick: a drum row's cached sample, or the slice of a synth
      sample played for a piano-roll note. */
  datatype Trigger = DrumHit(row: int, sample: string) | NoteHit(row: int, path: string, sliceMs: int)

  /** The triggers of one `step(col)` call, and whether it raised before finishing. */
  datatype TickResult = TickResult(events: seq<Trigger>, crashed: bool)

  predicate ValidViews(vs: seq<RowView>)
  {
    forall i :: 0 <= i < |vs| ==> |vs[i].grid| == STEPS
  }

  /** `os.path.join(SOUNDS_DIR, folder, file)`: where a drum row's sample is read from. */
  function DrumPath(v: RowView): string
  {
    Join3(SOUNDS_DIR, v.folder, v.file)
  }

  /** The entry `play_sequence` caches for one row: nothing for a piano-roll row or a
      file that fails to load, else the loaded sound (named by its path). */
  function CachedSound(v: RowView, loadable: set<string>): Option<string>
  {
    if v.isPianoRoll then None
    else if DrumPath(v) in loadable then Some(DrumPath(v))
    else None
  }

  /** `self.sounds` as the cache loop of `play_sequence` builds it, one entry per row. */
  function SoundCache(vs: seq<RowView>, loadable: set<string>): seq<Option<string>>
  {
    seq(|vs|, i requires 0 <= i < |vs| => CachedSound(vs[i], loadable))
  }

  /** What one piano-roll note triggers at `col`: a note starting there on an unmuted
      row plays the synth sample of MIDI `108 - row`, cut to the note's slice, when that
      file is readable. */
  function NoteTrigger(i: int, n: Note, muted: bool, folder: string, synth: (int, string) -> string, col: int, bpm: int, readable: set<string>): seq<Trigger>
    requires bpm > 0
  {
    if n.start == col && !muted then
      var p := synth(TOP_MIDI - n.row, folder);
      if p in readable then [NoteHit(i, p, NoteSliceMs(n.end - n.start + 1, bpm))] else []
    else []
  }

  /** The note loop of `step`, over the notes in list order. */
  function NoteTriggers(i: int, notes: seq<Note>, muted: bool, folder: string, synth: (int, string) -> string, col: int, bpm: int, readable: set<string>): seq<Trigger>
    requires bpm > 0
  {
    if notes == [] then []
    else
      var n := |notes| - 1;
      NoteTriggers(i, notes[..n], muted, folder, synth, col, bpm, readable) + NoteTrigger(i, notes[n], muted, folder, synth, col, bpm, readable)
  }

  /** Whether row `i` raises in `step(col)`. A sounding drum row with no entry in
      `self.sounds` raises `IndexError` before it plays. A row with an open piano-roll
      panel raises `AttributeError` after its own sounds, since the panel's canvas has
      no `set_playhead`. */
  predicate RowRaises(i: int, v: RowView, sounds: seq<Option<string>>, col: int)
    requires 0 <= col < |v.grid|
  {
    v.hasPanel || (!v.isPianoRoll && v.grid[col] != 0 && !v.muted && !(0 <= i < |sounds|))
  }

  /** The body of `step` for row `i`. */
  function RowTick(i: int, v: RowView, sounds: seq<Option<string>>, col: int, bpm: int, readable: set<string>, synth: (int, string) -> string): TickResult
    requires bpm > 0 && 0 <= col < |v.grid|
  {
    var events :=
      if v.isPianoRoll then NoteTriggers(i, v.notes, v.muted, v.folder, synth, col, bpm, readable)
      else if v.grid[col] != 0 && !v.muted && 0 <= i < |sounds| && sounds[i].Some? then [DrumHit(i, sounds[i].value)]
      else [];
    TickResult(events, RowRaises(i, v, sounds, col))
  }

  /** `step(col)` over all rows in order; a row that raises ends the tick there. */
  function Tick(vs: seq<RowView>, sounds: seq<Option<string>>, col: int, bpm: int, readable: set<string>, synth: (int, string) -> string): TickResult
    requires ValidViews(vs) && 0 <= col < STEPS && bpm > 0
  {
    if vs == [] then TickResult([], false)
    else
      var n := |vs| - 1;
      var prev := Tick(vs[..n], sounds, col, bpm, readable, synth);
      if prev.crashed then prev
      else
        var r := RowTick(n, vs[n], sounds, col, bpm, readable, synth);
        TickResult(prev.events + r.events, r.crashed)
  }

  /** A note that fires at `col` with trigger `e`. */
  predicate NoteFires(i: int, n: Note, muted: bool, folder: string, synth: (int, string) -> string, col: int, bpm: int, readable: set<string>, e: Trigger)
    requires bpm > 0
  {
    && n.start == col && !muted
    && synth(TOP_MIDI - n.row, folder) in readable
    && e == NoteHit(i, synth(TOP_MIDI - n.row, folder), NoteSliceMs(n.end - n.start + 1, bpm))
  }

  /** A lone note fires at most once, exactly when it starts at `col` on an unmuted row
      and its synth sample is readable. */
  lemma OneNoteOneTrigger(i: int, n: Note, muted: bool, folder: string, synth: (int, string) -> string, col: int, bpm: int, readable: set<string>)
    requires bpm > 0
    ensures |NoteTriggers(i, [n], muted, folder, synth, col, bpm, readable)| <= 1
    ensures |NoteTriggers(i, [n], muted, folder, synth, col, bpm, readable)| == 1 <==>
      n.start == col && !muted && synth(TOP_MIDI - n.row, folder) in readable
  {
    SingleNoteTriggers(i, n, muted, folder, synth, col, bpm, readable);
  }

  lemma SingleNoteTriggers(i: int, n: Note, muted: bool, folder: string, synth: (int, string) -> string, col: int, bpm: int, readable: set<string>)
    requires bpm > 0
    ensures NoteTriggers(i, [n], muted, folder, synth, col, bpm, readable) == NoteTrigger(i, n, muted, folder, synth, col, bpm, readable)
  {
    assert [n][..0] == [];
  }

  /** The trigger of one note is the one it fires. */
  lemma NoteTriggerFires(i: int, n: Note, muted: bool, folder: string, synth: (int, string) -> string, col: int, bpm: int, readable: set<string>, e: Trigger)
    requires bpm > 0
    ensures e in NoteTrigger(i, n, muted, folder, synth, col, bpm, readable) <==> NoteFires(i, n, muted, folder, synth, col, bpm, readable, e)
  {
  }

  /** Each note contributes its own triggers, in list order. */
  lemma {:induction false} NoteTriggersAppend(i: int, a: seq<Note>, b: seq<Note>, muted: bool, folder: string, synth: (int, string) -> string, col: int, bpm: int, readable: set<string>)
    requires bpm > 0
    ensures NoteTriggers(i, a + b, muted, folder, synth, col, bpm, readable) ==
            NoteTriggers(i, a, muted, folder, synth, col, bpm, readable) + NoteTriggers(i, b, muted, folder, synth, col, bpm, readable)
    decreases |b|
  {
    if b == [] {
      assert a + b == a;
    } else {
      var n := |b| - 1;
      assert (a + b)[..|a + b| - 1] == a + b[..n];
      NoteTriggersAppend(i, a, b[..n], muted, folder, synth, col, bpm, readable);
    }
  }

  /** The notes loop triggers exactly the notes that fire. */
  lemma {:induction false} NoteTriggersIff(i: int, notes: seq<Note>, muted: bool, folder: string, synth: (int, string) -> string, col: int, bpm: int, readable: set<string>, e: Trigger)
    requires bpm > 0
    ensures e in NoteTriggers(i, notes, muted, folder, synth, col, bpm, readable) <==>
      exists k :: 0 <= k < |notes| && NoteFires(i, notes[k], muted, folder, synth, col, bpm, readable, e)
  {
    if notes != [] {
      var n := |notes| - 1;
      var front := notes[..n];
      NoteTriggersIff(i, front, muted, folder, synth, col, bpm, readable, e);
      NoteTriggerFires(i, notes[n], muted, folder, synth, col, bpm, readable, e);
      assert NoteTriggers(i, notes, muted, folder, synth, col, bpm, readable) ==
        NoteTriggers(i, front, muted, folder, synth, col, bpm, readable) + NoteTrigger(i, notes[n], muted, folder, synth, col, bpm, readable);
      if exists k :: 0 <= k < |notes| && NoteFires(i, notes[k], muted, folder, synth, col, bpm, readable, e) {
        var k :| 0 <= k < |notes| && NoteFires(i, notes[k], muted, folder, synth, col, bpm, readable, e);
        if k < n {
          assert front[k] == notes[k];
        }
      }
      if exists k :: 0 <= k < n && NoteFires(i, front[k], muted, folder, synth, col, bpm, readable, e) {
        var k :| 0 <= k < n && NoteFires(i, front[k], muted, folder, synth, col, bpm, readable, e);
        assert notes[k] == front[k];
      }
    }
  }

  /** A tick raises exactly when some row has an open panel, or is a drum row with its
      step set and not muted and no entry in the sound cache (a row added after playback
      started). */
  lemma {:induction false} TickCrashIff(vs: seq<RowView>, sounds: seq<Option<string>>, col: int, bpm: int, readable: set<string>, synth: (int, string) -> string)
    requires ValidViews(vs) && 0 <= col < STEPS && bpm > 0
    ensures Tick(vs, sounds, col, bpm, readable, synth).crashed <==>
      exists i :: 0 <= i < |vs| && (vs[i].hasPanel || (!vs[i].isPianoRoll && vs[i].grid[col] != 0 && !vs[i].muted && i >= |sounds|))
  {
    if vs != [] {
      var n := |vs| - 1;
      var front := vs[..n];
      TickCrashIff(front, sounds, col, bpm, readable, synth);
      assert forall i :: 0 <= i < n ==> front[i] == vs[i];
    }
  }

  /** The tick over one more row: the row's triggers follow the earlier ones, and its
      crash flag becomes the tick's. */
  lemma TickSnoc(vs: seq<RowView>, k: nat, sounds: seq<Option<string>>, col: int, bpm: int, readable: set<string>, synth: (int, string) -> string)
    requires ValidViews(vs) && 0 <= col < STEPS && bpm > 0 && k < |vs|
    requires !Tick(vs[..k], sounds, col, bpm, readable, synth).crashed
    ensures Tick(vs[..k + 1], sounds, col, bpm, readable, synth) ==
      TickResult(Tick(vs[..k], sounds, col, bpm, readable, synth).events + RowTick(k, vs[k], sounds, col, bpm, readable, synth).events,
                 RowTick(k, vs[k], sounds, col, bpm, readable, synth).crashed)
  {
    assert vs[..k + 1][..k] == vs[..k];
  }

  /** Once a prefix of the rows raises, the tick has ended: the later rows add nothing. */
  lemma {:induction false} TickCrashSticky(vs: seq<RowView>, k: nat, sounds: seq<Option<string>>, col: int, bpm: int, readable: set<string>, synth: (int, string) -> string)
    requires ValidViews(vs) && 0 <= col < STEPS && bpm > 0 && k <= |vs|
    requires Tick(vs[..k], sounds, col, bpm, readable, synth).crashed
    ensures Tick(vs, sounds, col, bpm, readable, synth) == Tick(vs[..k], sounds, col, bpm, readable, synth)
    decreases |vs| - k
  {
    if k < |vs| {
      var n := |vs| - 1;
      var front := vs[..n];
      assert front[..k] == vs[..k];
      TickCrashSticky(front, k, sounds, col, bpm, readable, synth);
    } else {
      assert vs[..k] == vs;
    }
  }

  /** Row `i` is reached by the tick: no row before it raised. */
  predicate Reached(vs: seq<RowView>, sounds: seq<Option<string>>, col: int, i: int)
    requires ValidViews(vs) && 0 <= col < STEPS && 0 <= i <= |vs|
  {
    forall j :: 0 <= j < i ==> !RowRaises(j, vs[j], sounds, col)
  }

  /** The tick's triggers are those of the rows it reaches, the row that raises
      included. */
  lemma {:induction false} TickEventsIff(vs: seq<RowView>, sounds: seq<Option<string>>, col: int, bpm: int, readable: set<string>, synth: (int, string) -> string, e: Trigger)
    requires ValidViews(vs) && 0 <= col < STEPS && bpm > 0
    ensures e in Tick(vs, sounds, col, bpm, readable, synth).events <==>
      exists i :: 0 <= i < |vs| && Reached(vs, sounds, col, i) && e in RowTick(i, vs[i], sounds, col, bpm, readable, synth).events
  {
    if vs != [] {
      var n := |vs| - 1;
      var front := vs[..n];
      TickEventsIff(front, sounds, col, bpm, readable, synth, e);
      TickCrashIff(front, sounds, col, bpm, readable, synth);
      assert forall i :: 0 <= i < n ==> front[i] == vs[i];
      assert forall i :: 0 <= i <= n ==> (Reached(front, sounds, col, i) <==> Reached(vs, sounds, col, i));
    }
  }

  /** Every trigger a row emits names that row. */
  lemma RowTickNamesRow(i: int, v: RowView, sounds: seq<Option<string>>, col: int, bpm: int, readable: set<string>, synth: (int, string) -> string, e: Trigger)
    requires bpm > 0 && 0 <= col < |v.grid|
    requires e in RowTick(i, v, sounds, col, bpm, readable, synth).events
    ensures e.row == i
  {
    if v.isPianoRoll {
      NoteTriggersIff(i, v.notes, v.muted, v.folder, synth, col, bpm, readable, e);
    }
  }

  /** A drum row sounds at `col` exactly when the tick reaches it, its step is set, it
      is not muted and its cached sound loaded. */
  lemma DrumHitIff(vs: seq<RowView>, sounds: seq<Option<string>>, col: int, bpm: int, readable: set<string>, synth: (int, string) -> string, i: int, s: string)
    requires ValidViews(vs) && 0 <= col < STEPS && bpm > 0
    ensures DrumHit(i, s) in Tick(vs, sounds, col, bpm, readable, synth).events <==>
      0 <= i < |vs| && Reached(vs, sounds, col, i) && !vs[i].isPianoRoll && vs[i].grid[col] != 0 && !vs[i].muted &&
      i < |sounds| && sounds[i] == Some(s)
  {
    var e := DrumHit(i, s);
    TickEventsIff(vs, sounds, col, bpm, readable, synth, e);
    if e in Tick(vs, sounds, col, bpm, readable, synth).events {
      var j :| 0 <= j < |vs| && Reached(vs, sounds, col, j) && e in RowTick(j, vs[j], sounds, col, bpm, readable, synth).events;
      RowTickNamesRow(j, vs[j], sounds, col, bpm, readable, synth, e);
      if vs[j].isPianoRoll {
        NoteTriggersIff(j, vs[j].notes, vs[j].muted, vs[j].folder, synth, col, bpm, readable, e);
      }
    }
  }

  /** An unmuted piano-roll row the tick reaches triggers one note slice for each note
      starting at `col` whose synth file is readable: `sounds/<folder>/<name of MIDI
      108 - row>.wav`, cut to the note's length plus the buffer. */
  lemma NoteHitIff(vs: seq<RowView>, sounds: seq<Option<string>>, col: int, bpm: int, readable: set<string>, synth: (int, string) -> string, i: int, p: string, ms: int)
    requires ValidViews(vs) && 0 <= col < STEPS && bpm > 0
    ensures NoteHit(i, p, ms) in Tick(vs, sounds, col, bpm, readable, synth).events <==>
      0 <= i < |vs| && Reached(vs, sounds, col, i) && vs[i].isPianoRoll &&
      exists k :: 0 <= k < |vs[i].notes| && NoteFires(i, vs[i].notes[k], vs[i].muted, vs[i].folder, synth, col, bpm, readable, NoteHit(i, p, ms))
  {
    if NoteHit(i, p, ms) in Tick(vs, sounds, col, bpm, readable, synth).events {
      NoteHitFrom(vs, sounds, col, bpm, readable, synth, NoteHit(i, p, ms));
    }
    if 0 <= i < |vs| && Reached(vs, sounds, col, i) && vs[i].isPianoRoll &&
      exists k :: 0 <= k < |vs[i].notes| && NoteFires(i, vs[i].notes[k], vs[i].muted, vs[i].folder, synth, col, bpm, readable, NoteHit(i, p, ms))
    {
      NoteHitTo(vs, sounds, col, bpm, readable, synth, i, NoteHit(i, p, ms));
    }
  }

  /** A note slice in a tick comes from a firing note of a piano-roll row the tick
      reaches. */
  lemma NoteHitFrom(vs: seq<RowView>, sounds: seq<Option<string>>, col: int, bpm: int, readable: set<string>, synth: (int, string) -> string, e: Trigger)
    requires ValidViews(vs) && 0 <= col < STEPS && bpm > 0 && e.NoteHit?
    requires e in Tick(vs, sounds, col, bpm, readable, synth).events
    ensures 0 <= e.row < |vs| && Reached(vs, sounds, col, e.row) && vs[e.row].isPianoRoll
    ensures exists k :: 0 <= k < |vs[e.row].notes| && NoteFires(e.row, vs[e.row].notes[k], vs[e.row].muted, vs[e.row].folder, synth, col, bpm, readable, e)
  {
    TickEventsIff(vs, sounds, col, bpm, readable, synth, e);
    var j :| 0 <= j < |vs| && Reached(vs, sounds, col, j) && e in RowTick(j, vs[j], sounds, col, bpm, readable, synth).events;
    RowTickNamesRow(j, vs[j], sounds, col, bpm, readable, synth, e);
    assert vs[j].isPianoRoll;
    NoteTriggersIff(j, vs[j].notes, vs[j].muted, vs[j].folder, synth, col, bpm, readable, e);
  }

  /** A firing note of a piano-roll row the tick reaches is played. */
  lemma NoteHitTo(vs: seq<RowView>, sounds: seq<Option<string>>, col: int, bpm: int, readable: set<string>, synth: (int, string) -> string, i: int, e: Trigger)
    requires ValidViews(vs) && 0 <= col < STEPS && bpm > 0
    requires 0 <= i < |vs| && Reached(vs, sounds, col, i) && vs[i].isPianoRoll
    requires exists k :: 0 <= k < |vs[i].notes| && NoteFires(i, vs[i].notes[k], vs[i].muted, vs[i].folder, synth, col, bpm, readable, e)
    ensures e in Tick(vs, sounds, col, bpm, readable, synth).events
  {
    NoteTriggersIff(i, vs[i].notes, vs[i].muted, vs[i].folder, synth, col, bpm, readable, e);
    assert e in RowTick(i, vs[i], sounds, col, bpm, readable, synth).events;
    TickEventsIff(vs, sounds, col, bpm, readable, synth, e);
  }

  /** Right after `play_sequence` builds the cache from the same rows, a tick raises
      exactly when some row has an open panel. A drum row sounds exactly when no earlier
      row has a panel, its step is set, it is unmuted and its file loaded. */
  lemma FreshCacheTick(vs: seq<RowView>, loadable: set<string>, col: int, bpm: int, readable: set<string>, synth: (int, string) -> string, i: int, s: string)
    requires ValidViews(vs) && 0 <= col < STEPS && bpm > 0
    ensures Tick(vs, SoundCache(vs, loadable), col, bpm, readable, synth).crashed <==>
      exists j :: 0 <= j < |vs| && vs[j].hasPanel
    ensures DrumHit(i, s) in Tick(vs, SoundCache(vs, loadable), col, bpm, readable, synth).events <==>
      0 <= i < |vs| && (forall j :: 0 <= j < i ==> !vs[j].hasPanel) &&
      !vs[i].isPianoRoll && vs[i].grid[col] != 0 && !vs[i].muted &&
      s == DrumPath(vs[i]) && DrumPath(vs[i]) in loadable
  {
    var sounds := SoundCache(vs, loadable);
    TickCrashIff(vs, sounds, col, bpm, readable, synth);
    DrumHitIff(vs, sounds, col, bpm, readable, synth, i, s);
    if 0 <= i < |vs| {
      assert Reached(vs, sounds, col, i) <==> forall j :: 0 <= j < i ==> !vs[j].hasPanel;
    }
  }

  /** As written, opening any row's piano roll halts playback: with the panel of a
      piano-roll row open, the first tick raises and a sounding drum row after it stays
      silent. */
  lemma PanelHaltsTick(p: RowView, d: RowView, loadable: set<string>, bpm: int, readable: set<string>, synth: (int, string) -> string)
    requires p.isPianoRoll && p.hasPanel && |p.grid| == STEPS
    requires !d.isPianoRoll && !d.hasPanel && |d.grid| == STEPS && d.grid[0] != 0 && !d.muted && DrumPath(d) in loadable
    requires bpm > 0
    ensures Tick([p, d], SoundCache([p, d], loadable), 0, bpm, readable, synth).crashed
    ensures DrumHit(1, DrumPath(d)) !in Tick([p, d], SoundCache([p, d], loadable), 0, bpm, readable, synth).events
  {
    FreshCacheTick([p, d], loadable, 0, bpm, readable, synth, 1, DrumPath(d));
  }

  /** The rows as the tick would see them if the playhead call drew instead of raising:
      no row counts as having a panel. */
  function WithoutPlayhead(vs: seq<RowView>): (ws: seq<RowView>)
    ensures |ws| == |vs|
    ensures forall i :: 0 <= i < |vs| ==> ws[i] == vs[i].(hasPanel := false)
  {
    seq(|vs|, i requires 0 <= i < |vs| => vs[i].(hasPanel := false))
  }

  /** With a playhead that only draws, the tick right after `play_sequence` never raises,
      whatever panels are open, and every drum row sounds exactly when its step is set,
      it is unmuted and its file loaded. */
  lemma IntendedFreshTick(vs: seq<RowView>, loadable: set<string>, col: int, bpm: int, readable: set<string>, synth: (int, string) -> string, i: int, s: string)
    requires ValidViews(vs) && 0 <= col < STEPS && bpm > 0
    ensures ValidViews(WithoutPlayhead(vs))
    ensures !Tick(WithoutPlayhead(vs), SoundCache(vs, loadable), col, bpm, readable, synth).crashed
    ensures DrumHit(i, s) in Tick(WithoutPlayhead(vs), SoundCache(vs, loadable), col, bpm, readable, synth).events <==>
      0 <= i < |vs| && !vs[i].isPianoRoll && vs[i].grid[col] != 0 && !vs[i].muted &&
      s == DrumPath(vs[i]) && DrumPath(vs[i]) in loadable
  {
    var ws := WithoutPlayhead(vs);
    assert SoundCache(ws, loadable) == SoundCache(vs, loadable);
    FreshCacheTick(ws, loadable, col, bpm, readable, synth, i, s);
  }

  /** The cache is indexed by position, not by row: after the first of two drum rows is
      removed during playback, the survivor plays the removed row's sample. */
  lemma StaleCacheAfterRemove(a: RowView, b: RowView, loadable: set<string>, col: int, readable: set<string>, synth: (int, string) -> string)
    requires !a.isPianoRoll && !b.isPianoRoll && |a.grid| == STEPS && |b.grid| == STEPS && 0 <= col < STEPS
    requires b.grid[col] != 0 && !b.muted && DrumPath(a) in loadable
    ensures DrumHit(0, DrumPath(a)) in Tick([b], SoundCache([a, b], loadable), col, 120, readable, synth).events
  {
    var sounds := SoundCache([a, b], loadable);
    assert sounds[0] == Some(DrumPath(a));
    assert [b][..0] == [];
  }

  /** What one row adds to an export: piano-roll rows, muted rows and samples pydub
      cannot decode are skipped. */
  function ExportSource(v: RowView, decodable: set<string>): TrackSource
  {
    if v.isPianoRoll || v.muted then Skip
    else if DrumPath(v) in decodable then Use(DrumPath(v), v.grid)
    else Skip
  }

  function ExportSources(vs: seq<RowView>, decodable: set<string>): (srcs: seq<TrackSource>)
    ensures |srcs| == |vs|
    ensures forall i :: 0 <= i < |vs| ==> srcs[i] == ExportSource(vs[i], decodable)
    ensures ValidViews(vs) ==> ValidSources(srcs)
  {
    seq(|vs|, i requires 0 <= i < |vs| => ExportSource(vs[i], decodable))
  }

  /** The export overlays step `col` of row `i` exactly when the row is an unmuted drum
      row whose sample decodes and whose step is set; that overlay is unique, carries the
      row's sample and sits at `int(col * beat)`. */
  lemma ExportStepIff(vs: seq<RowView>, decodable: set<string>, bpm: int, i: int, col: int)
    requires ValidViews(vs) && bpm > 0
    ensures (exists k :: OverlaysStep(PlanOverlays(ExportSources(vs, decodable), bpm), k, i, col)) <==>
      0 <= i < |vs| && 0 <= col < STEPS && !vs[i].isPianoRoll && !vs[i].muted &&
      DrumPath(vs[i]) in decodable && vs[i].grid[col] != 0
  {
    var srcs := ExportSources(vs, decodable);
    var ov := PlanOverlays(srcs, bpm);
    PlanSound(srcs, bpm);
    if exists k :: OverlaysStep(ov, k, i, col) {
      var k :| OverlaysStep(ov, k, i, col);
      assert IsStepOverlay(ov[k], srcs, bpm);
    }
    if 0 <= i < |vs| && 0 <= col < STEPS && !vs[i].isPianoRoll && !vs[i].muted &&
       DrumPath(vs[i]) in decodable && vs[i].grid[col] != 0 {
      PlanComplete(srcs, bpm, i, col);
    }
  }
}
