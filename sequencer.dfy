/** The objects of the try3 sequencer (try3/sequencer.py): a `TrackRow` per track and
    the `SequencerApp` that owns the rows, plays them one `step` at a time and exports
    them. Widgets are reduced to the values they hold: the instrument dropdown to
    `isPianoRoll`, the folder and file dropdowns to `folder` and `file`, the mute box to
    `muted`, the BPM entry to `bpmText`, and an open piano-roll panel to the notes list
    of its canvas. `root.after` is a single pending `Timer`; the directory listing of
    `sounds/` and the audio loaders are parameters. */
module Sequencer {
  import opened Wrappers
  import opened Text
  import opened Pitch
  import opened Timing
  import opened Pattern
  import opened Notes
  import opened Render
  import opened SequencerTick

  const DEFAULT_BPM := 120
  const OUTPUT_DIR := "zoutputs"

  predicate IsWav(f: string) { EndsWith(f, ".wav") }

  /** `[f for f in entries if f.endswith(".wav")]`. */
  function WavFiles(entries: seq<string>): (w: seq<string>)
    ensures |w| <= |entries|
    ensures forall f :: f in w <==> f in entries && IsWav(f)
  {
    if entries == [] then []
    else
      var n := |entries| - 1;
      assert entries == entries[..n] + [entries[n]];
      WavFiles(entries[..n]) + (if IsWav(entries[n]) then [entries[n]] else [])
  }

  /** The first entry of the listing is the first `.wav` file offered. */
  lemma {:induction false} WavFilesFirst(entries: seq<string>)
    requires WavFiles(entries) != []
    ensures exists k :: (
      && 0 <= k < |entries| && entries[k] == WavFiles(entries)[0] && IsWav(entries[k])
      && forall j :: 0 <= j < k ==> !IsWav(entries[j]))
  {
    var n := |entries| - 1;
    var front := entries[..n];
    var tail := if IsWav(entries[n]) then [entries[n]] else [];
    assert WavFiles(entries) == WavFiles(front) + tail;
    if WavFiles(front) != [] {
      WavFilesFirst(front);
      var k :| 0 <= k < |front| && front[k] == WavFiles(front)[0] && IsWav(front[k])
        && forall j :: 0 <= j < k ==> !IsWav(front[j]);
      assert WavFiles(entries)[0] == WavFiles(front)[0];
      assert forall j :: 0 <= j < k ==> entries[j] == front[j];
      assert entries[k] == front[k];
    } else {
      assert WavFiles(entries) == [entries[n]];
      forall j | 0 <= j < n ensures !IsWav(entries[j]) {
        assert entries[j] == front[j] && front[j] in front;
      }
      assert entries[n] == WavFiles(entries)[0];
    }
  }

  /** The file `update_file_list` leaves selected: the first `.wav` in `sounds/<folder>`
      when that is a directory holding one, else the previous selection. `listing` maps
      each name `f` for which `sounds/<f>` is a directory to that directory's entries. */
  function FirstWav(listing: map<string, seq<string>>, folder: string, current: string): (f: string)
    ensures f != current ==> folder in listing && f in listing[folder] && IsWav(f)
  {
    if folder in listing && WavFiles(listing[folder]) != [] then WavFiles(listing[folder])[0] else current
  }

  /** One track: a 0/1 step per column, a mode, the sample chosen in its dropdowns, a
      mute flag and the notes saved from its piano-roll panel. */
  class TrackRow {
    var index: int
    const steps: nat
    const cellWidth: int
    var grid: seq<int>
    var pianoRollNotes: seq<Note>
    var isPianoRoll: bool
    var folder: string
    var file: string
    var muted: bool

    ghost predicate Valid()
      reads this`grid
    {
      cellWidth > 0 && |grid| == steps && IsStepRow(grid)
    }

    /** A new row: an all-off Drum Pad row with the first folder of `sounds/` selected
        and, from it, the first `.wav` file. */
    constructor(index: int, cellWidth: int, steps: nat, folders: seq<string>, listing: map<string, seq<string>>)
      requires cellWidth > 0
      ensures Valid()
      ensures this.index == index && this.cellWidth == cellWidth && this.steps == steps
      ensures grid == ZeroRow(steps) && pianoRollNotes == [] && !isPianoRoll && !muted
      ensures folder == (if folders != [] then folders[0] else "")
      ensures file == FirstWav(listing, folder, "")
    {
      this.index := index;
      this.steps := steps;
      this.cellWidth := cellWidth;
      grid := ZeroRow(steps);
      pianoRollNotes := [];
      isPianoRoll := false;
      folder := "";
      file := "";
      muted := false;
      new;
      if folders != [] {
        SelectFolder(folders[0], listing);
      }
      SetInstrument(false, folders, listing);
    }

    /** `update_file_list`: select the first `.wav` of the chosen folder, if any. */
    method UpdateFileList(listing: map<string, seq<string>>)
      modifies this
      ensures file == FirstWav(listing, folder, old(file))
      ensures folder == old(folder) && isPianoRoll == old(isPianoRoll) && muted == old(muted)
      ensures grid == old(grid) && pianoRollNotes == old(pianoRollNotes) && index == old(index)
    {
      if folder in listing {
        var files := WavFiles(listing[folder]);
        if files != [] {
          file := files[0];
        }
      }
    }

    /** Picking a folder in the dropdown; its trace refreshes the file list. */
    method SelectFolder(f: string, listing: map<string, seq<string>>)
      modifies this
      ensures folder == f && file == FirstWav(listing, f, old(file))
      ensures isPianoRoll == old(isPianoRoll) && muted == old(muted)
      ensures grid == old(grid) && pianoRollNotes == old(pianoRollNotes) && index == old(index)
    {
      folder := f;
      UpdateFileList(listing);
    }

    /** Picking a file in the dropdown. */
    method SelectFile(f: string)
      modifies this
      ensures file == f && folder == old(folder) && isPianoRoll == old(isPianoRoll) && muted == old(muted)
      ensures grid == old(grid) && pianoRollNotes == old(pianoRollNotes) && index == old(index)
    {
      file := f;
    }

    /** Ticking or clearing the Mute box. */
    method SetMute(m: bool)
      modifies this
      ensures muted == m && file == old(file) && folder == old(folder) && isPianoRoll == old(isPianoRoll)
      ensures grid == old(grid) && pianoRollNotes == old(pianoRollNotes) && index == old(index)
    {
      muted := m;
    }

    /** `on_instrument_change`. Drum Pad keeps the folder while it is still listed (else
        takes the first listed one) and refreshes the file list. Piano Roll switches to
        `synth` when that folder exists, which refreshes the file list through the
        folder's trace, and otherwise leaves folder and file alone. */
    method SetInstrument(pianoRoll: bool, folders: seq<string>, listing: map<string, seq<string>>)
      modifies this
      ensures isPianoRoll == pianoRoll
      ensures !pianoRoll ==>
        folder == (if folders != [] && old(folder) !in folders then folders[0] else old(folder))
      ensures !pianoRoll ==> file == FirstWav(listing, folder, old(file))
      ensures pianoRoll && "synth" in folders ==> folder == "synth" && file == FirstWav(listing, "synth", old(file))
      ensures pianoRoll && "synth" !in folders ==> folder == old(folder) && file == old(file)
      ensures muted == old(muted) && grid == old(grid) && pianoRollNotes == old(pianoRollNotes) && index == old(index)
    {
      if !pianoRoll {
        isPianoRoll := false;
        if folders != [] && folder !in folders {
          SelectFolder(folders[0], listing);
        }
        UpdateFileList(listing);
      } else {
        isPianoRoll := true;
        if "synth" in folders {
          SelectFolder("synth", listing);
        }
      }
    }

    /** `on_canvas_click`: in Drum Pad mode a click at `x` flips step `x // cell_width`
        when that column exists; anything else leaves the row alone. */
    method OnCanvasClick(x: int)
      requires Valid()
      modifies this
      ensures Valid()
      ensures grid == if !isPianoRoll && 0 <= x / cellWidth < steps then Toggle(old(grid), x / cellWidth) else old(grid)
      ensures isPianoRoll == old(isPianoRoll) && muted == old(muted) && folder == old(folder) && file == old(file)
      ensures pianoRollNotes == old(pianoRollNotes) && index == old(index)
    {
      if isPianoRoll {
        return;
      }
      var col := x / cellWidth;
      if 0 <= col < steps {
        grid := Toggle(grid, col);
      }
    }
  }

  /** Everything of a row but its position index is as it was. */
  twostate predicate SameRow(r: TrackRow)
    reads r
  {
    && r.grid == old(r.grid) && r.pianoRollNotes == old(r.pianoRollNotes)
    && r.isPianoRoll == old(r.isPianoRoll) && r.folder == old(r.folder)
    && r.file == old(r.file) && r.muted == old(r.muted)
  }

  /** What the tick sees of a row: the open panel's notes when it has one, else the
      notes saved on the row. A row is in `pr_panels` exactly while its `pr_panel` is
      set (both are set together when the panel opens and cleared together when it is
      destroyed), so `hasPanel` is membership in `panels`. */
  function ViewOf(r: TrackRow, panels: map<TrackRow, seq<Note>>): RowView
    reads r`isPianoRoll, r`muted, r`grid, r`pianoRollNotes, r`folder, r`file
  {
    RowView(r.isPianoRoll, r.muted, r.grid, if r in panels then panels[r] else r.pianoRollNotes, r.folder, r.file, r in panels)
  }

  function ViewsOf(rows: seq<TrackRow>, panels: map<TrackRow, seq<Note>>): (vs: seq<RowView>)
    reads set r | r in rows
    ensures |vs| == |rows|
    ensures forall i :: 0 <= i < |rows| ==> vs[i] == ViewOf(rows[i], panels)
  {
    seq(|rows|, i reads set r | r in rows requires 0 <= i < |rows| => ViewOf(rows[i], panels))
  }

  /** `self.pr_note_cache` as `play_sequence` builds it: a copy of each piano-roll row's
      notes, nothing for a drum row. No tick reads it. */
  function NoteCache(vs: seq<RowView>): seq<Option<seq<Note>>>
  {
    seq(|vs|, i requires 0 <= i < |vs| => NoteEntry(vs[i]))
  }

  /** A piano-roll row's entry in `self.pr_note_cache`: a copy of its notes. */
  function NoteEntry(v: RowView): Option<seq<Note>>
  {
    if v.isPianoRoll then Some(v.notes) else None
  }

  /** `list.remove(row)`: the list without the first occurrence of `row`. */
  function Without<T(==)>(rows: seq<T>, row: T): (r: seq<T>)
    ensures row !in rows ==> r == rows
    ensures row in rows ==> |r| == |rows| - 1
  {
    if rows == [] then []
    else if rows[0] == row then rows[1..]
    else [rows[0]] + Without(rows[1..], row)
  }

  /** Removing the row at `i` keeps the rows before and after it, in order. */
  lemma {:induction false} WithoutSplits<T>(rows: seq<T>, row: T, i: int)
    requires 0 <= i < |rows| && rows[i] == row && row !in rows[..i]
    ensures Without(rows, row) == rows[..i] + rows[i + 1..]
  {
    if i > 0 {
      assert rows[0] in rows[..i];
      assert rows[1..][..i - 1] == rows[..i][1..];
      WithoutSplits(rows[1..], row, i - 1);
      assert rows[1..][i..] == rows[i + 1..];
      assert [rows[0]] + rows[1..][..i - 1] == rows[..i];
    }
  }

  /** With every row listed once, the removal drops exactly `row`. */
  lemma WithoutMembers<T>(rows: seq<T>, row: T)
    requires forall i, j :: 0 <= i < j < |rows| ==> rows[i] != rows[j]
    ensures forall r :: r in Without(rows, row) <==> r in rows && r != row
  {
    if row in rows {
      var i :| 0 <= i < |rows| && rows[i] == row;
      assert row !in rows[..i];
      WithoutSplits(rows, row, i);
      forall r ensures r in rows[..i] + rows[i + 1..] <==> r in rows && r != row {
        SplitMember(rows, i, r);
      }
    }
  }

  /** Outside position `i`, the members of a list of distinct entries are those of the
      list with `i` cut out. */
  lemma SplitMember<T>(rows: seq<T>, i: int, r: T)
    requires forall a, b :: 0 <= a < b < |rows| ==> rows[a] != rows[b]
    requires 0 <= i < |rows|
    ensures r in rows[..i] + rows[i + 1..] <==> r in rows && r != rows[i]
  {
    var w := rows[..i] + rows[i + 1..];
    if r in w {
      var a :| 0 <= a < |w| && w[a] == r;
      if a < i { assert rows[a] == r; } else { assert rows[a + 1] == r; }
    }
    if r in rows && r != rows[i] {
      var a :| 0 <= a < |rows| && rows[a] == r;
      if a < i { assert w[a] == r; } else { assert w[a - 1] == r; }
    }
  }

  /** Removing a row keeps every other row listed once. */
  lemma WithoutDistinct<T>(rows: seq<T>, row: T)
    requires forall i, j :: 0 <= i < j < |rows| ==> rows[i] != rows[j]
    ensures forall i, j :: 0 <= i < j < |Without(rows, row)| ==> Without(rows, row)[i] != Without(rows, row)[j]
  {
    if row in rows {
      var i :| 0 <= i < |rows| && rows[i] == row;
      assert row !in rows[..i];
      WithoutSplits(rows, row, i);
      var w := rows[..i] + rows[i + 1..];
      forall a, b | 0 <= a < b < |w| ensures w[a] != w[b] {
        var a' := if a < i then a else a + 1;
        var b' := if b < i then b else b + 1;
        assert w[a] == rows[a'] && w[b] == rows[b'];
      }
    }
  }

  /** The note loop of `step` for piano-roll row `i`. */
  method PlayNotes(i: int, notes: seq<Note>, muted: bool, folder: string, synth: (int, string) -> string, col: int, bpm: int, readable: set<string>)
    returns (fired: seq<Trigger>)
    requires bpm > 0
    ensures fired == NoteTriggers(i, notes, muted, folder, synth, col, bpm, readable)
  {
    fired := [];
    var j := 0;
    while j < |notes|
      invariant 0 <= j <= |notes|
      invariant fired == NoteTriggers(i, notes[..j], muted, folder, synth, col, bpm, readable)
    {
      var n := notes[j];
      if n.start == col && !muted {
        var path := synth(TOP_MIDI - n.row, folder);
        if path in readable {
          fired := fired + [NoteHit(i, path, NoteSliceMs(n.end - n.start + 1, bpm))];
        }
      }
      assert notes[..j + 1][..j] == notes[..j];
      j := j + 1;
    }
    assert notes[..j] == notes;
  }

  /** The row loop of `step(col)`: the triggers fired, in order, and whether a row raised
      (which ends the loop). */
  method TickRows(rows: seq<TrackRow>, panels: map<TrackRow, seq<Note>>, sounds: seq<Option<string>>, col: int, bpm: int, readable: set<string>, synth: (int, string) -> string)
    returns (events: seq<Trigger>, crashed: bool)
    requires forall r :: r in rows ==> |r.grid| == STEPS
    requires 0 <= col < STEPS && bpm > 0
    ensures ValidViews(ViewsOf(rows, panels))
    ensures TickResult(events, crashed) == Tick(ViewsOf(rows, panels), sounds, col, bpm, readable, synth)
  {
    ghost var vs := ViewsOf(rows, panels);
    assert ValidViews(vs);
    events := [];
    crashed := false;
    var k := 0;
    while k < |rows|
      invariant 0 <= k <= |rows|
      invariant Tick(vs[..k], sounds, col, bpm, readable, synth) == TickResult(events, false)
    {
      TickSnoc(vs, k, sounds, col, bpm, readable, synth);
      var r := RowStep(k, rows[k], panels, sounds, col, bpm, readable, synth);
      assert r == RowTick(k, vs[k], sounds, col, bpm, readable, synth);
      events := events + r.events;
      if r.crashed {
        crashed := true;
        TickCrashSticky(vs, k + 1, sounds, col, bpm, readable, synth);
        return;
      }
      k := k + 1;
    }
    assert vs[..k] == vs;
  }

  /** The body of the row loop of `step(col)` for row `k`: the row's sounds, then the
      playhead call, which raises once the row has a panel. */
  method RowStep(k: int, row: TrackRow, panels: map<TrackRow, seq<Note>>, sounds: seq<Option<string>>, col: int, bpm: int, readable: set<string>, synth: (int, string) -> string)
    returns (r: TickResult)
    requires |row.grid| == STEPS && 0 <= col < STEPS && bpm > 0
    ensures r == RowTick(k, ViewOf(row, panels), sounds, col, bpm, readable, synth)
  {
    var fired := [];
    if row.isPianoRoll {
      var notes := if row in panels then panels[row] else row.pianoRollNotes;
      fired := PlayNotes(k, notes, row.muted, row.folder, synth, col, bpm, readable);
    } else if row.grid[col] != 0 && !row.muted {
      if k < 0 || k >= |sounds| {
        return TickResult([], true);
      }
      if sounds[k].Some? {
        fired := [DrumHit(k, sounds[k].value)];
      }
    }
    return TickResult(fired, row in panels);
  }

  /** The cache loop of `play_sequence`, run once every open panel's notes are saved on
      its row: one sound entry and one note-cache entry per row. */
  method BuildCache(rows: seq<TrackRow>, panels: map<TrackRow, seq<Note>>, loadable: set<string>)
    returns (cache: seq<Option<string>>, noteCache: seq<Option<seq<Note>>>)
    requires forall r :: r in rows && r in panels ==> r.pianoRollNotes == panels[r]
    ensures cache == SoundCache(ViewsOf(rows, panels), loadable)
    ensures noteCache == NoteCache(ViewsOf(rows, panels))
  {
    ghost var vs := ViewsOf(rows, panels);
    cache := [];
    noteCache := [];
    var k := 0;
    while k < |rows|
      invariant 0 <= k <= |rows|
      invariant |cache| == |noteCache| == k
      invariant forall i :: 0 <= i < k ==> cache[i] == CachedSound(vs[i], loadable)
      invariant forall i :: 0 <= i < k ==> noteCache[i] == NoteEntry(vs[i])
    {
      var row := rows[k];
      assert vs[k] == ViewOf(row, panels);
      if row.isPianoRoll {
        cache := cache + [None];
        noteCache := noteCache + [Some(row.pianoRollNotes)];
      } else {
        var path := Join3(SOUNDS_DIR, row.folder, row.file);
        cache := cache + [if path in loadable then Some(path) else None];
        noteCache := noteCache + [None];
      }
      k := k + 1;
    }
    assert vs[..k] == vs;
  }

  /** The cache loop of `play_sequence` and its call `step(0)`. Every row has its cache
      entry, so the tick raises exactly when some row has an open panel. */
  method FirstTick(rows: seq<TrackRow>, panels: map<TrackRow, seq<Note>>, loadable: set<string>, bpm: int, readable: set<string>)
    returns (cache: seq<Option<string>>, noteCache: seq<Option<seq<Note>>>, events: seq<Trigger>, crashed: bool)
    requires forall r :: r in rows ==> |r.grid| == STEPS
    requires forall r :: r in rows && r in panels ==> r.pianoRollNotes == panels[r]
    requires bpm > 0
    ensures ValidViews(ViewsOf(rows, panels))
    ensures cache == SoundCache(ViewsOf(rows, panels), loadable)
    ensures noteCache == NoteCache(ViewsOf(rows, panels))
    ensures TickResult(events, crashed) == Tick(ViewsOf(rows, panels), cache, 0, bpm, readable, SynthSamplePath)
    ensures crashed <==> exists i :: 0 <= i < |rows| && rows[i] in panels
  {
    cache, noteCache := BuildCache(rows, panels, loadable);
    events, crashed := TickRows(rows, panels, cache, 0, bpm, readable, SynthSamplePath);
    FreshCacheTick(ViewsOf(rows, panels), loadable, 0, bpm, readable, SynthSamplePath, 0, "");
  }

  /** When every panel belongs to a listed row, some row has a panel exactly when there
      is a panel. */
  lemma PanelsOfRows(rows: seq<TrackRow>, panels: map<TrackRow, seq<Note>>)
    requires forall r :: r in panels ==> r in rows
    ensures (exists i :: 0 <= i < |rows| && rows[i] in panels) <==> panels != map[]
  {
    if panels != map[] {
      var r :| r in panels;
      var i :| 0 <= i < |rows| && rows[i] == r;
    }
  }

  /** The nested loops of `export_sequence`: for each unmuted drum row whose sample
      decodes, one overlay per set step, rows in order and columns ascending. */
  method PlanExport(rows: seq<TrackRow>, panels: map<TrackRow, seq<Note>>, bpm: int, decodable: set<string>)
    returns (ov: seq<Overlay>)
    requires forall r :: r in rows ==> |r.grid| == STEPS
    requires bpm > 0
    ensures ValidSources(ExportSources(ViewsOf(rows, panels), decodable))
    ensures ov == PlanOverlays(ExportSources(ViewsOf(rows, panels), decodable), bpm)
  {
    ghost var vs := ViewsOf(rows, panels);
    assert ValidViews(vs);
    ghost var srcs := ExportSources(vs, decodable);
    ov := [];
    var k := 0;
    while k < |rows|
      invariant 0 <= k <= |rows|
      invariant ov == PlanOverlays(srcs[..k], bpm)
    {
      var steps := ExportRow(k, rows[k], panels, bpm, decodable);
      assert srcs[k] == ExportSource(ViewOf(rows[k], panels), decodable);
      PlanSnoc(srcs, k, bpm);
      ov := ov + steps;
      k := k + 1;
    }
    assert srcs[..k] == srcs;
  }

  /** The body of the row loop of `export_sequence`: the overlays of one row. */
  method ExportRow(k: int, row: TrackRow, panels: map<TrackRow, seq<Note>>, bpm: int, decodable: set<string>)
    returns (steps: seq<Overlay>)
    requires |row.grid| == STEPS && bpm > 0
    ensures steps == TrackOverlays(k, ExportSource(ViewOf(row, panels), decodable), bpm)
  {
    steps := [];
    if !row.isPianoRoll && !row.muted {
      var path := Join3(SOUNDS_DIR, row.folder, row.file);
      if path in decodable {
        steps := ExportSteps(k, path, row.grid, bpm);
      }
    }
  }

  /** The column loop of `export_sequence` for one row: an overlay at `int(col * beat)`
      for each set step. */
  method ExportSteps(track: int, sample: string, grid: seq<int>, bpm: int) returns (ov: seq<Overlay>)
    requires |grid| == STEPS && bpm > 0
    ensures ov == StepOverlays(track, sample, grid, bpm, STEPS)
  {
    ov := [];
    var col := 0;
    while col < STEPS
      invariant 0 <= col <= STEPS
      invariant ov == StepOverlays(track, sample, grid, bpm, col)
    {
      if grid[col] != 0 {
        ov := ov + [Overlay(track, col, sample, OffsetMs(col, bpm))];
      }
      col := col + 1;
    }
  }

  /** The pending `root.after` callback: its id, the column its `step` call will play
      and the tempo the `step` closure captured. */
  datatype Timer = Timer(id: nat, col: int, bpm: int)

  class SequencerApp {
    const cellWidth: int
    var trackRows: seq<TrackRow>
    var prPanels: map<TrackRow, seq<Note>>
    var isPlaying: bool
    var playbackAfterId: Option<nat>
    var pending: Option<Timer>
    var nextAfterId: nat
    var sounds: seq<Option<string>>
    var prNoteCache: seq<Option<seq<Note>>>
    var bpmText: string

    ghost function Rows(): set<TrackRow>
      reads this`trackRows
    {
      set r | r in trackRows
    }

    /** Every row is a well-formed 64-step row listed once, and panels belong to listed
        rows. */
    ghost predicate Sound()
      reads this`trackRows, this`prPanels, Rows()`grid
    {
      && cellWidth > 0
      && (forall r :: r in trackRows ==> r.Valid() && r.steps == STEPS)
      && (forall i, j :: 0 <= i < j < |trackRows| ==> trackRows[i] != trackRows[j])
      && (forall r :: r in prPanels ==> r in trackRows)
    }

    /** A timer is pending only while playing, it is the one `playback_after_id` names,
        and its column is a step of the loop. */
    ghost predicate Scheduled()
      reads this`pending, this`isPlaying, this`playbackAfterId, this`nextAfterId
    {
      pending.Some? ==>
        && isPlaying && playbackAfterId == Some(pending.value.id) && pending.value.id < nextAfterId
        && 0 <= pending.value.col < STEPS && pending.value.bpm > 0
    }

    /** `refresh_rows` has run: each row's `index` is its position. */
    ghost predicate Indexed()
      reads this`trackRows, Rows()`index
    {
      forall i :: 0 <= i < |trackRows| ==> trackRows[i].index == i
    }

    ghost predicate Valid()
      reads this`trackRows, this`prPanels, this`pending, this`isPlaying, this`playbackAfterId, this`nextAfterId
      reads Rows()`grid, Rows()`index
    {
      Sound() && Scheduled() && Indexed()
    }

    /** The rows as the tick sees them, `ViewsOf(trackRows, prPanels)`, are well-formed
        64-step views. */
    lemma SoundViews()
      requires Sound()
      ensures ValidViews(ViewsOf(trackRows, prPanels))
    {
      assert forall i :: 0 <= i < |trackRows| ==> trackRows[i] in trackRows;
    }

    /** A new app: stopped, BPM entry "120", one fresh row. */
    constructor(cellWidth: int, folders: seq<string>, listing: map<string, seq<string>>)
      requires cellWidth > 0
      ensures Valid() && this.cellWidth == cellWidth
      ensures |trackRows| == 1 && fresh(trackRows[0]) && trackRows[0].grid == ZeroRow(STEPS)
      ensures prPanels == map[] && !isPlaying && pending == None && playbackAfterId == None
      ensures bpmText == IntToDecimal(DEFAULT_BPM)
    {
      this.cellWidth := cellWidth;
      trackRows := [];
      prPanels := map[];
      isPlaying := false;
      playbackAfterId := None;
      pending := None;
      nextAfterId := 0;
      sounds := [];
      prNoteCache := [];
      bpmText := IntToDecimal(DEFAULT_BPM);
      new;
      AddRow(folders, listing);
    }

    /** Typing into the BPM entry. */
    method SetBpmText(text: string)
      modifies this
      ensures bpmText == text
      ensures trackRows == old(trackRows) && prPanels == old(prPanels) && isPlaying == old(isPlaying)
      ensures pending == old(pending) && playbackAfterId == old(playbackAfterId) && nextAfterId == old(nextAfterId)
      ensures sounds == old(sounds) && prNoteCache == old(prNoteCache)
    {
      bpmText := text;
    }

    /** `add_row`: a fresh row at the end, indexed by its position. */
    method AddRow(folders: seq<string>, listing: map<string, seq<string>>)
      requires Valid()
      modifies this
      ensures Valid()
      ensures |trackRows| == |old(trackRows)| + 1 && trackRows[..|old(trackRows)|] == old(trackRows)
      ensures var r := trackRows[|old(trackRows)|];
        fresh(r) && r.grid == ZeroRow(STEPS) && r.pianoRollNotes == [] && !r.isPianoRoll && !r.muted &&
        r.index == |old(trackRows)| &&
        r.folder == (if folders != [] then folders[0] else "") && r.file == FirstWav(listing, r.folder, "")
      ensures prPanels == old(prPanels) && isPlaying == old(isPlaying) && bpmText == old(bpmText)
      ensures pending == old(pending) && playbackAfterId == old(playbackAfterId) && nextAfterId == old(nextAfterId)
      ensures sounds == old(sounds) && prNoteCache == old(prNoteCache)
    {
      var row := new TrackRow(|trackRows|, cellWidth, STEPS, folders, listing);
      trackRows := trackRows + [row];
    }

    /** `refresh_rows`: renumber the rows by position. */
    method RefreshRows()
      requires Sound() && Scheduled()
      modifies Rows()
      ensures Valid()
      ensures forall r :: r in Rows() ==> SameRow(r)
    {
      var i := 0;
      while i < |trackRows|
        invariant 0 <= i <= |trackRows|
        invariant forall j :: 0 <= j < i ==> trackRows[j].index == j
        invariant forall r :: r in Rows() ==> SameRow(r)
        invariant Sound()
      {
        trackRows[i].index := i;
        i := i + 1;
      }
    }

    /** `remove_row`: close the row's panel, drop the row from the list and renumber
        the rest, which keep their order and contents. */
    method RemoveRow(row: TrackRow)
      requires Valid()
      modifies this, Rows()
      ensures Valid()
      ensures prPanels == old(prPanels) - {row}
      ensures trackRows == Without(old(trackRows), row)
      ensures forall r :: r in trackRows <==> r in old(trackRows) && r != row
      ensures forall r :: r in old(Rows()) ==> SameRow(r)
      ensures isPlaying == old(isPlaying) && bpmText == old(bpmText) && sounds == old(sounds)
      ensures pending == old(pending) && playbackAfterId == old(playbackAfterId) && nextAfterId == old(nextAfterId)
    {
      WithoutMembers(trackRows, row);
      WithoutDistinct(trackRows, row);
      prPanels := prPanels - {row};
      if row in trackRows {
        trackRows := Without(trackRows, row);
        RefreshRows();
        forall r | r in old(Rows()) ensures SameRow(r) {
          if r != row {
            assert r in Rows();
          }
        }
      }
    }

    /** `open_piano_roll` for a Piano Roll row without a panel: the new panel's canvas
        starts from a copy of the row's saved notes. A Drum Pad row, or a row whose panel
        is already open (which is only raised), changes nothing. */
    method OpenPianoRoll(row: TrackRow)
      requires Valid() && row in trackRows
      modifies this
      ensures Valid()
      ensures prPanels == if row.isPianoRoll && row !in old(prPanels) then old(prPanels)[row := row.pianoRollNotes] else old(prPanels)
      ensures trackRows == old(trackRows) && isPlaying == old(isPlaying) && bpmText == old(bpmText) && sounds == old(sounds)
      ensures pending == old(pending) && playbackAfterId == old(playbackAfterId) && nextAfterId == old(nextAfterId)
    {
      if !row.isPianoRoll {
        return;
      }
      if row in prPanels {
        return;
      }
      prPanels := prPanels[row := row.pianoRollNotes];
    }

    /** An edit in an open panel's canvas leaves it holding `notes`. */
    method PanelEdited(row: TrackRow, notes: seq<Note>)
      requires Valid()
      modifies this
      ensures Valid()
      ensures prPanels == if row in old(prPanels) then old(prPanels)[row := notes] else old(prPanels)
      ensures trackRows == old(trackRows) && isPlaying == old(isPlaying) && bpmText == old(bpmText) && sounds == old(sounds)
      ensures pending == old(pending) && playbackAfterId == old(playbackAfterId) && nextAfterId == old(nextAfterId)
    {
      if row in prPanels {
        prPanels := prPanels[row := notes];
      }
    }

    /** The panel's `<Unmap>` handler saves a copy of its canvas notes on the row; what
        the tick sees does not change. */
    method PanelUnmapped(row: TrackRow)
      requires Valid() && row in prPanels
      modifies row
      ensures Valid()
      ensures row.pianoRollNotes == prPanels[row]
      ensures row.grid == old(row.grid) && row.isPianoRoll == old(row.isPianoRoll) && row.muted == old(row.muted)
      ensures row.folder == old(row.folder) && row.file == old(row.file) && row.index == old(row.index)
      ensures ViewsOf(trackRows, prPanels) == old(ViewsOf(trackRows, prPanels))
    {
      row.pianoRollNotes := prPanels[row];
    }

    /** The panel's `<Destroy>` handler forgets the panel; the row keeps whatever notes
        were last saved on it. */
    method PanelDestroyed(row: TrackRow)
      requires Valid()
      modifies this
      ensures Valid()
      ensures prPanels == old(prPanels) - {row}
      ensures trackRows == old(trackRows) && isPlaying == old(isPlaying) && bpmText == old(bpmText) && sounds == old(sounds)
      ensures pending == old(pending) && playbackAfterId == old(playbackAfterId) && nextAfterId == old(nextAfterId)
    {
      prPanels := prPanels - {row};
    }

    /** `self.playback_after_id = self.root.after(..., lambda: step(col))`. */
    method Schedule(col: int, bpm: int)
      requires Scheduled() && isPlaying && pending == None && 0 <= col < STEPS && bpm > 0
      modifies this`pending, this`playbackAfterId, this`nextAfterId
      ensures Scheduled()
      ensures pending == Some(Timer(old(nextAfterId), col, bpm))
      ensures playbackAfterId == Some(old(nextAfterId)) && nextAfterId == old(nextAfterId) + 1
    {
      pending := Some(Timer(nextAfterId, col, bpm));
      playbackAfterId := Some(nextAfterId);
      nextAfterId := nextAfterId + 1;
    }

    /** The `step(col)` closure: one tick over the rows in order, then the next tick
        scheduled at `(col + 1) % STEPS`. A sounding drum row with no cache entry, or a
        row with an open panel, raises, which ends the tick there and schedules
        nothing. */
    method Step(col: int, bpm: int, readable: set<string>) returns (events: seq<Trigger>, crashed: bool)
      requires Valid() && isPlaying && pending == None && 0 <= col < STEPS && bpm > 0
      modifies this`pending, this`playbackAfterId, this`nextAfterId
      ensures Valid() && ValidViews(ViewsOf(trackRows, prPanels))
      ensures TickResult(events, crashed) == Tick(ViewsOf(trackRows, prPanels), sounds, col, bpm, readable, SynthSamplePath)
      ensures !crashed ==>
        pending == Some(Timer(old(nextAfterId), (col + 1) % STEPS, bpm)) &&
        playbackAfterId == Some(old(nextAfterId)) && nextAfterId == old(nextAfterId) + 1
      ensures crashed ==>
        pending == None && playbackAfterId == old(playbackAfterId) && nextAfterId == old(nextAfterId)
    {
      events, crashed := TickRows(trackRows, prPanels, sounds, col, bpm, readable, SynthSamplePath);
      if !crashed {
        Schedule((col + 1) % STEPS, bpm);
      }
    }

    /** The event loop running the pending `after` callback, if there is one. */
    method FireTimer(readable: set<string>) returns (events: seq<Trigger>, crashed: bool)
      requires Valid()
      modifies this`pending, this`playbackAfterId, this`nextAfterId
      ensures Valid() && ValidViews(ViewsOf(trackRows, prPanels))
      ensures old(pending) == None ==> unchanged(this) && events == [] && !crashed
      ensures old(pending).Some? ==>
        var t := Tick(ViewsOf(trackRows, prPanels), sounds, old(pending).value.col, old(pending).value.bpm, readable, SynthSamplePath);
        && events == t.events && crashed == t.crashed
        && (!crashed ==> pending == Some(Timer(old(nextAfterId), (old(pending).value.col + 1) % STEPS, old(pending).value.bpm)))
        && (crashed ==> pending == None)
    {
      SoundViews();
      if pending == None {
        return [], false;
      }
      var t := pending.value;
      pending := None;
      events, crashed := Step(t.col, t.bpm, readable);
    }

    /** `stop_playback`: when playing, clear the flag and cancel the pending tick. The
        clean-up loop then calls `clear_playhead` on the first row whose panel is open,
        a method the piano-roll canvas does not have, so it raises `AttributeError`
        after the flag and the timer are done with. */
    method StopPlayback() returns (raised: bool)
      requires Valid()
      modifies this
      ensures Valid()
      ensures raised <==> old(isPlaying) && prPanels != map[]
      ensures !isPlaying
      ensures old(isPlaying) ==> pending == None
      ensures !old(isPlaying) ==> unchanged(this)
      ensures trackRows == old(trackRows) && prPanels == old(prPanels) && sounds == old(sounds) && bpmText == old(bpmText)
      ensures playbackAfterId == old(playbackAfterId) && nextAfterId == old(nextAfterId)
    {
      raised := false;
      if isPlaying {
        isPlaying := false;
        if playbackAfterId.Some? {
          if pending.Some? && pending.value.id == playbackAfterId.value {
            pending := None;
          }
        }
        raised := prPanels != map[];
      }
    }

    /** `play_sequence`. Already playing, or a BPM entry that is not a positive integer:
        nothing happens. Otherwise: save each open panel's notes on its row, build the
        sound cache (one entry per row) and the unused note cache, set the playing flag
        and run the first tick at column 0. That tick raises exactly when some panel is
        open; then the flag stays set and nothing is scheduled. */
    method PlaySequence(loadable: set<string>, readable: set<string>) returns (events: seq<Trigger>, crashed: bool)
      requires Valid()
      modifies this, Rows()
      ensures Valid()
      ensures old(isPlaying) || ParsePositive(old(bpmText)).None? ==>
        unchanged(this) && (forall r :: r in old(Rows()) ==> unchanged(r)) && events == [] && !crashed
      ensures !old(isPlaying) && ParsePositive(old(bpmText)).Some? ==> (
        && trackRows == old(trackRows) && prPanels == old(prPanels) && bpmText == old(bpmText)
        && (forall r :: r in old(Rows()) ==> SyncedRow(r, if r in prPanels then prPanels[r] else old(r.pianoRollNotes)))
        && ValidViews(old(ViewsOf(trackRows, prPanels)))
        && sounds == SoundCache(old(ViewsOf(trackRows, prPanels)), loadable)
        && prNoteCache == NoteCache(old(ViewsOf(trackRows, prPanels)))
        && isPlaying
        && TickResult(events, crashed) == Tick(old(ViewsOf(trackRows, prPanels)), sounds, 0, ParsePositive(bpmText).value, readable, SynthSamplePath)
        && (crashed <==> prPanels != map[])
        && (!crashed ==> pending == Some(Timer(old(nextAfterId), 1, ParsePositive(bpmText).value)))
        && (crashed ==> pending == None && playbackAfterId == old(playbackAfterId)))
    {
      if isPlaying {
        return [], false;
      }
      var parsed := ParsePositive(bpmText);
      if parsed.None? {
        return [], false;
      }
      var bpm := parsed.value;
      SyncPanels();
      events, crashed := StartPlayback(bpm, loadable, readable);
    }

    /** The first loop of `play_sequence`: each open panel's notes are saved on its row. */
    method SyncPanels()
      requires Valid()
      modifies Rows()`pianoRollNotes
      ensures Valid()
      ensures forall r :: r in Rows() ==> SyncedRow(r, if r in prPanels then prPanels[r] else old(r.pianoRollNotes))
      ensures ViewsOf(trackRows, prPanels) == old(ViewsOf(trackRows, prPanels))
    {
      var keys := prPanels.Keys;
      while keys != {}
        invariant keys <= prPanels.Keys
        invariant forall r :: r in Rows() ==>
          r.pianoRollNotes == if r in prPanels && r !in keys then prPanels[r] else old(r.pianoRollNotes)
        decreases keys
      {
        var r :| r in keys;
        r.pianoRollNotes := prPanels[r];
        keys := keys - {r};
      }
      ghost var before := old(ViewsOf(trackRows, prPanels));
      forall i | 0 <= i < |trackRows| ensures ViewOf(trackRows[i], prPanels) == before[i] {
        var r := trackRows[i];
        assert r in Rows();
        assert before[i] == old(ViewOf(r, prPanels));
      }
    }

    /** The rest of `play_sequence`: the caches, the playing flag and the first tick.
        The tick raises exactly when some panel is open; otherwise the next one is
        scheduled. */
    method StartPlayback(bpm: int, loadable: set<string>, readable: set<string>) returns (events: seq<Trigger>, crashed: bool)
      requires Valid() && !isPlaying && bpm > 0
      requires forall r :: r in trackRows && r in prPanels ==> r.pianoRollNotes == prPanels[r]
      modifies this`sounds, this`prNoteCache, this`isPlaying, this`pending, this`playbackAfterId, this`nextAfterId
      ensures Valid() && isPlaying
      ensures crashed <==> prPanels != map[]
      ensures !crashed ==> pending == Some(Timer(old(nextAfterId), 1, bpm))
      ensures crashed ==> pending == None && playbackAfterId == old(playbackAfterId) && nextAfterId == old(nextAfterId)
      ensures ValidViews(old(ViewsOf(trackRows, prPanels)))
      ensures sounds == SoundCache(old(ViewsOf(trackRows, prPanels)), loadable)
      ensures prNoteCache == NoteCache(old(ViewsOf(trackRows, prPanels)))
      ensures TickResult(events, crashed) == Tick(old(ViewsOf(trackRows, prPanels)), sounds, 0, bpm, readable, SynthSamplePath)
    {
      var cache, noteCache, evs, raised := FirstTick(trackRows, prPanels, loadable, bpm, readable);
      sounds := cache;
      prNoteCache := noteCache;
      isPlaying := true;
      events, crashed := evs, raised;
      PanelsOfRows(trackRows, prPanels);
      if !crashed {
        Schedule(1, bpm);
      }
    }

    /** `toggle_playback`, the Play/Stop button. Stopping raises in its clean-up loop, and
        starting raises in its first tick, exactly when some panel is open; either raise
        skips the relabelling of the button. */
    method TogglePlayback(loadable: set<string>, readable: set<string>) returns (events: seq<Trigger>, crashed: bool)
      requires Valid()
      modifies this, Rows()
      ensures Valid()
      ensures old(isPlaying) ==> !isPlaying && pending == None && events == []
      ensures old(isPlaying) ==> (crashed <==> prPanels != map[])
      ensures !old(isPlaying) ==> (isPlaying <==> ParsePositive(bpmText).Some?)
      ensures !old(isPlaying) ==> (crashed <==> ParsePositive(bpmText).Some? && prPanels != map[])
    {
      if isPlaying {
        crashed := StopPlayback();
        return [], crashed;
      }
      events, crashed := PlaySequence(loadable, readable);
    }

    /** `export_sequence`: with a valid BPM, the mix of every set step of every unmuted
        drum row whose sample decodes, over a loop of `int(beat * STEPS)` ms, repeated
        `bars` times and written to `zoutputs/<filename>`. */
    method ExportSequence(filename: string, bars: int, decodable: set<string>) returns (r: Result<Mix, ExportError>)
      requires Valid()
      ensures ParsePositive(bpmText).None? ==> r == Failure(InvalidBpm)
      ensures ParsePositive(bpmText).Some? ==>
        ValidSources(ExportSources(ViewsOf(trackRows, prPanels), decodable)) &&
        r == Success(Mix(LoopMs(ParsePositive(bpmText).value),
                         PlanOverlays(ExportSources(ViewsOf(trackRows, prPanels), decodable), ParsePositive(bpmText).value),
                         bars, Join(OUTPUT_DIR, filename)))
    {
      var parsed := ParsePositive(bpmText);
      if parsed.None? {
        return Failure(InvalidBpm);
      }
      var bpm := parsed.value;
      var ov := PlanExport(trackRows, prPanels, bpm, decodable);
      return Success(Mix(LoopMs(bpm), ov, bars, Join(OUTPUT_DIR, filename)));
    }

    /** `show_export_dialog`: a cancelled or empty filename, or a cancelled bar count
        (the dialog only returns counts of at least 1), exports nothing. */
    method ShowExportDialog(filename: Option<string>, bars: Option<int>, decodable: set<string>) returns (r: Option<Result<Mix, ExportError>>)
      requires Valid()
      ensures r.None? <==> filename.None? || filename.value == "" || bars.None? || bars.value == 0
      ensures r.Some? ==> ParsePositive(bpmText).None? ==> r.value == Failure(InvalidBpm)
      ensures r.Some? ==> ParsePositive(bpmText).Some? ==>
        ValidSources(ExportSources(ViewsOf(trackRows, prPanels), decodable)) &&
        r.value == Success(Mix(LoopMs(ParsePositive(bpmText).value),
                               PlanOverlays(ExportSources(ViewsOf(trackRows, prPanels), decodable), ParsePositive(bpmText).value),
                               bars.value, Join(OUTPUT_DIR, filename.value)))
    {
      if filename.None? || filename.value == "" {
        return None;
      }
      if bars.None? || bars.value == 0 {
        return None;
      }
      var mix := ExportSequence(filename.value, bars.value, decodable);
      return Some(mix);
    }
  }

  /** Everything of a row but its index is as it was, and its saved notes are `notes`. */
  twostate predicate SyncedRow(r: TrackRow, notes: seq<Note>)
    reads r
  {
    && r.grid == old(r.grid) && r.pianoRollNotes == notes
    && r.isPianoRoll == old(r.isPianoRoll) && r.folder == old(r.folder)
    && r.file == old(r.file) && r.muted == old(r.muted) && r.index == old(r.index)
  }
}
