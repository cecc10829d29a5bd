/** The drum-only beat sequencer of main/gui1.py: a `TrackRow` per track with a 64-step
    row of buttons, and the `SequencerApp` that plays the rows live and exports them.

    A row is seen by the tick and the exporter as a Drum Pad `RowView` (no notes): its
    mute flag, steps, folder and file. The step buttons' backgrounds are not stored;
    `ButtonColor` is the colour `update_button_color` would give a button. The sound
    loaders are abstracted by sets of paths, as in the try3 model: `loadable` (pygame
    opens the file) and `decodable` (pydub decodes it). */
module BeatGui {
  import opened Wrappers
  import opened MinMax
  import opened Text
  import opened Pitch
  import opened Timing
  import opened Pattern
  import opened Render
  import opened SequencerTick
  import Sequencer

  const REPEATS := 4
  const DEFAULT_EXPORT_NAME := "nba.wav"

  /** The background `update_button_color(col, highlight)` gives step `col`: set steps
      are green (black when muted), unset ones the base colour of their group of four;
      the playing column has its own brighter or darker shades. */
  function ButtonColor(muted: bool, filled: bool, col: int, highlight: bool): string
  {
    if highlight then
      if muted then (if filled then "#505050" else "#B0B0B0")
      else (if filled then "#00FF00" else "#686464")
    else if filled then (if muted then "black" else "green")
    else BaseColor(col)
  }

  /** The button of a set step never shows a base colour, and neither does the playing
      column, so set steps and the playhead always stand out. */
  lemma ButtonColorDistinguishes(muted: bool, filled: bool, col: int, highlight: bool)
    ensures ButtonColor(muted, filled, col, highlight) == BaseColor(col) <==> !filled && !highlight
    ensures ButtonColor(muted, filled, col, highlight) in {"white", "lightgray"} <==> !filled && !highlight
  {
  }

  /** Each mode of a button (mute, set, playing) shows its own colour: the colour
      determines everything but the base colour's group. */
  lemma ButtonColorInjective(m1: bool, f1: bool, c1: int, h1: bool, m2: bool, f2: bool, c2: int, h2: bool)
    requires ButtonColor(m1, f1, c1, h1) == ButtonColor(m2, f2, c2, h2)
    ensures h1 == h2 && f1 == f2
    ensures h1 || f1 ==> m1 == m2
    ensures !h1 && !f1 ==> (c1 / 4) % 2 == (c2 / 4) % 2
  {
  }

  /** The row of button colours `update_all_buttons` leaves, no column playing. */
  function RowColors(grid: seq<int>, muted: bool): (cs: seq<string>)
    ensures |cs| == |grid|
    ensures forall c :: 0 <= c < |grid| ==> cs[c] == ButtonColor(muted, grid[c] == 1, c, false)
  {
    seq(|grid|, c requires 0 <= c < |grid| => ButtonColor(muted, grid[c] == 1, c, false))
  }

  /** Muting changes exactly the buttons of set steps, from green to black. */
  lemma MuteRecolorsSetSteps(grid: seq<int>, c: int)
    requires 0 <= c < |grid|
    ensures RowColors(grid, true)[c] != RowColors(grid, false)[c] <==> grid[c] == 1
  {
  }

  /** What the tick and the exporter see of a row. */
  function BeatViewOf(r: BeatRow): RowView
    reads r`grid, r`muted, r`folder, r`file
  {
    RowView(false, r.muted, r.grid, [], r.folder, r.file, false)
  }

  function BeatViews(rows: seq<BeatRow>): (vs: seq<RowView>)
    reads set r | r in rows
    ensures |vs| == |rows|
    ensures forall i :: 0 <= i < |rows| ==> vs[i] == BeatViewOf(rows[i])
  {
    seq(|rows|, i reads set r | r in rows requires 0 <= i < |rows| => BeatViewOf(rows[i]))
  }

  /** The body of `step` for row `i` with cache entry `sound`. */
  function BeatRowTick(i: int, v: RowView, sound: Option<string>, col: int): seq<Trigger>
    requires 0 <= col < |v.grid|
  {
    if v.grid[col] != 0 && !v.muted && sound.Some? then [DrumHit(i, sound.value)] else []
  }

  /** The first `n` rows of `step(col)`. */
  function BeatTickUpTo(vs: seq<RowView>, sounds: seq<Option<string>>, col: int, n: nat): seq<Trigger>
    requires ValidViews(vs) && 0 <= col < STEPS && n <= |vs| && n <= |sounds|
  {
    if n == 0 then []
    else BeatTickUpTo(vs, sounds, col, n - 1) + BeatRowTick(n - 1, vs[n - 1], sounds[n - 1], col)
  }

  /** `step(col)` while playing: the rows `range(min(len(track_rows), len(sounds)))`, in
      order. A row added after the cache was built has no entry and stays silent. */
  function BeatTick(vs: seq<RowView>, sounds: seq<Option<string>>, col: int): seq<Trigger>
    requires ValidViews(vs) && 0 <= col < STEPS
  {
    BeatTickUpTo(vs, sounds, col, Min(|vs|, |sounds|))
  }

  lemma {:induction false} BeatTickUpToIff(vs: seq<RowView>, sounds: seq<Option<string>>, col: int, n: nat, e: Trigger)
    requires ValidViews(vs) && 0 <= col < STEPS && n <= |vs| && n <= |sounds|
    ensures e in BeatTickUpTo(vs, sounds, col, n) <==>
      e.DrumHit? && 0 <= e.row < n && vs[e.row].grid[col] != 0 && !vs[e.row].muted && sounds[e.row] == Some(e.sample)
  {
    if n > 0 {
      BeatTickUpToIff(vs, sounds, col, n - 1, e);
    }
  }

  /** A row sounds at `col` exactly when it is among the first `len(sounds)` rows, its
      step is set, it is unmuted and its cached sound loaded; nothing else is started. */
  lemma BeatTickIff(vs: seq<RowView>, sounds: seq<Option<string>>, col: int, e: Trigger)
    requires ValidViews(vs) && 0 <= col < STEPS
    ensures e in BeatTick(vs, sounds, col) <==>
      e.DrumHit? && 0 <= e.row < |vs| && e.row < |sounds| &&
      vs[e.row].grid[col] != 0 && !vs[e.row].muted && sounds[e.row] == Some(e.sample)
  {
    BeatTickUpToIff(vs, sounds, col, Min(|vs|, |sounds|), e);
  }

  /** Right after `play_sequence` builds the cache from the same rows, a row sounds
      exactly when its step is set, it is unmuted and its file loaded. */
  lemma BeatFreshTick(vs: seq<RowView>, loadable: set<string>, col: int, i: int, s: string)
    requires ValidViews(vs) && 0 <= col < STEPS
    requires forall k :: 0 <= k < |vs| ==> !vs[k].isPianoRoll
    ensures DrumHit(i, s) in BeatTick(vs, SoundCache(vs, loadable), col) <==>
      0 <= i < |vs| && vs[i].grid[col] != 0 && !vs[i].muted && s == DrumPath(vs[i]) && DrumPath(vs[i]) in loadable
  {
    BeatTickIff(vs, SoundCache(vs, loadable), col, DrumHit(i, s));
  }

  lemma {:induction false} BeatAgreesUpTo(vs: seq<RowView>, sounds: seq<Option<string>>, col: int, bpm: int, readable: set<string>, synth: (int, string) -> string, n: nat)
    requires ValidViews(vs) && 0 <= col < STEPS && bpm > 0 && n <= |vs| <= |sounds|
    requires forall k :: 0 <= k < |vs| ==> !vs[k].isPianoRoll && !vs[k].hasPanel
    ensures ValidViews(vs[..n])
    ensures Tick(vs[..n], sounds, col, bpm, readable, synth) == TickResult(BeatTickUpTo(vs, sounds, col, n), false)
  {
    if n > 0 {
      BeatAgreesUpTo(vs, sounds, col, bpm, readable, synth, n - 1);
      assert vs[..n][..n - 1] == vs[..n - 1];
      assert vs[..n][n - 1] == vs[n - 1];
    }
  }

  /** With a cache entry for every row, the drum-only tick triggers what the try3 tick
      triggers for the same Drum Pad rows with no panel open, and neither raises. */
  lemma BeatAgreesWithTry3(vs: seq<RowView>, sounds: seq<Option<string>>, col: int, bpm: int, readable: set<string>, synth: (int, string) -> string)
    requires ValidViews(vs) && 0 <= col < STEPS && bpm > 0 && |vs| <= |sounds|
    requires forall k :: 0 <= k < |vs| ==> !vs[k].isPianoRoll && !vs[k].hasPanel
    ensures Tick(vs, sounds, col, bpm, readable, synth) == TickResult(BeatTick(vs, sounds, col), false)
  {
    BeatAgreesUpTo(vs, sounds, col, bpm, readable, synth, |vs|);
    assert vs[..|vs|] == vs;
  }

  /** One track of the drum sequencer. */
  class BeatRow {
    var index: int
    var grid: seq<int>
    var folder: string
    var file: string
    var muted: bool

    ghost predicate Valid()
      reads this`grid
    {
      |grid| == STEPS && IsStepRow(grid)
    }

    /** A new row: all steps off, unmuted, the first folder of `sounds/` selected and,
        through the folder's trace, its first `.wav` file. The source indexes the folder
        list unguarded, so a row exists only when there is a folder; `BeatApp.AddRow`
        models the raise otherwise. */
    constructor(index: int, folders: seq<string>, listing: map<string, seq<string>>)
      requires folders != []
      ensures Valid() && this.index == index
      ensures grid == ZeroRow(STEPS) && !muted
      ensures folder == folders[0] && file == Sequencer.FirstWav(listing, folders[0], "")
    {
      this.index := index;
      grid := ZeroRow(STEPS);
      muted := false;
      folder := "";
      file := "";
      new;
      SelectFolder(folders[0], listing);
    }

    /** `update_file_list`: select the first `.wav` of the chosen folder, if any. A
        folder that is not a directory makes `os.listdir` raise inside the trace
        callback; Tk reports it and the file stays as it was. */
    method UpdateFileList(listing: map<string, seq<string>>)
      modifies this`file
      ensures file == Sequencer.FirstWav(listing, folder, old(file))
    {
      if folder in listing {
        var files := Sequencer.WavFiles(listing[folder]);
        if files != [] {
          file := files[0];
        }
      }
    }

    /** Picking a folder in the dropdown; its trace refreshes the file list. */
    method SelectFolder(f: string, listing: map<string, seq<string>>)
      modifies this`folder, this`file
      ensures folder == f && file == Sequencer.FirstWav(listing, f, old(file))
    {
      folder := f;
      UpdateFileList(listing);
    }

    /** Picking a file in the dropdown. */
    method SelectFile(f: string)
      modifies this`file
      ensures file == f
    {
      file := f;
    }

    /** Ticking or clearing the Mute box (its command repaints the buttons). */
    method SetMute(m: bool)
      modifies this`muted
      ensures muted == m
    {
      muted := m;
    }

    /** `toggle_step(col)`: the button of step `col` flips that step and is repainted
        with the returned colour. */
    method ToggleStep(col: int) returns (color: string)
      requires Valid() && 0 <= col < STEPS
      modifies this`grid
      ensures Valid()
      ensures grid == Toggle(old(grid), col)
      ensures color == ButtonColor(muted, old(grid)[col] == 0, col, false)
    {
      grid := Toggle(grid, col);
      color := ButtonColor(muted, grid[col] == 1, col, false);
    }
  }

  /** The cache loop of `play_sequence`: one entry per row, the loaded sound or `None`. */
  method BuildSounds(rows: seq<BeatRow>, loadable: set<string>) returns (cache: seq<Option<string>>)
    ensures cache == SoundCache(BeatViews(rows), loadable)
  {
    ghost var vs := BeatViews(rows);
    cache := [];
    var k := 0;
    while k < |rows|
      invariant 0 <= k <= |rows|
      invariant |cache| == k
      invariant forall i :: 0 <= i < k ==> cache[i] == CachedSound(vs[i], loadable)
    {
      var row := rows[k];
      assert vs[k] == BeatViewOf(row);
      var path := Join3(SOUNDS_DIR, row.folder, row.file);
      cache := cache + [if path in loadable then Some(path) else None];
      k := k + 1;
    }
  }

  /** The cache loop of `play_sequence` and the row loop of its call `step(0)`. */
  method FirstBeatTick(rows: seq<BeatRow>, loadable: set<string>) returns (cache: seq<Option<string>>, events: seq<Trigger>)
    requires forall r :: r in rows ==> |r.grid| == STEPS
    ensures ValidViews(BeatViews(rows))
    ensures cache == SoundCache(BeatViews(rows), loadable)
    ensures events == BeatTick(BeatViews(rows), cache, 0)
  {
    cache := BuildSounds(rows, loadable);
    events := BeatTickRows(rows, cache, 0);
  }

  /** The row loop of `step(col)` while playing. */
  method BeatTickRows(rows: seq<BeatRow>, sounds: seq<Option<string>>, col: int) returns (events: seq<Trigger>)
    requires forall r :: r in rows ==> |r.grid| == STEPS
    requires 0 <= col < STEPS
    ensures ValidViews(BeatViews(rows))
    ensures events == BeatTick(BeatViews(rows), sounds, col)
  {
    ghost var vs := BeatViews(rows);
    assert ValidViews(vs);
    var n := if |rows| <= |sounds| then |rows| else |sounds|;
    events := [];
    var k := 0;
    while k < n
      invariant 0 <= k <= n
      invariant events == BeatTickUpTo(vs, sounds, col, k)
    {
      var row := rows[k];
      assert vs[k] == BeatViewOf(row);
      if row.grid[col] != 0 && !row.muted {
        var sound := sounds[k];
        if sound.Some? {
          events := events + [DrumHit(k, sound.value)];
        }
      }
      k := k + 1;
    }
  }

  /** The nested loops of `export_sequence`: for each unmuted row whose sample decodes,
      one overlay per set step, rows in order and columns ascending. */
  method PlanBeatExport(rows: seq<BeatRow>, bpm: int, decodable: set<string>) returns (ov: seq<Overlay>)
    requires forall r :: r in rows ==> |r.grid| == STEPS
    requires bpm > 0
    ensures ValidSources(ExportSources(BeatViews(rows), decodable))
    ensures ov == PlanOverlays(ExportSources(BeatViews(rows), decodable), bpm)
  {
    ghost var vs := BeatViews(rows);
    assert ValidViews(vs);
    ghost var srcs := ExportSources(vs, decodable);
    ov := [];
    var k := 0;
    while k < |rows|
      invariant 0 <= k <= |rows|
      invariant ov == PlanOverlays(srcs[..k], bpm)
    {
      var row := rows[k];
      assert srcs[k] == ExportSource(BeatViewOf(row), decodable);
      PlanSnoc(srcs, k, bpm);
      if !row.muted {
        var path := Join3(SOUNDS_DIR, row.folder, row.file);
        if path in decodable {
          var steps := Sequencer.ExportSteps(k, path, row.grid, bpm);
          ov := ov + steps;
        }
      }
      k := k + 1;
    }
    assert srcs[..k] == srcs;
  }

  class BeatApp {
    var trackRows: seq<BeatRow>
    var isPlaying: bool
    var playbackAfterId: Option<nat>
    var pending: Option<Sequencer.Timer>
    var nextAfterId: nat
    var sounds: seq<Option<string>>
    var bpmText: string

    ghost function Rows(): set<BeatRow>
      reads this`trackRows
    {
      set r | r in trackRows
    }

    /** Every row is a well-formed 64-step row listed once. */
    ghost predicate Sound()
      reads this`trackRows, Rows()`grid
    {
      && (forall r :: r in trackRows ==> r.Valid())
      && (forall i, j :: 0 <= i < j < |trackRows| ==> trackRows[i] != trackRows[j])
    }

    /** A timer is pending only while playing, it is the one `playback_after_id` names,
        and its column is a step of the loop. */
    ghost predicate Scheduled()
      reads this`pending, this`isPlaying, this`playbackAfterId, this`nextAfterId
    {
      pending.Some? ==>
        && isPlaying && playbackAfterId == Some(pending.value.id) && pending.value.id < nextAfterId
        && 0 <= pending.value.col < STEPS && pending.value.bpm > 0
    }

    /** `refresh_rows` has run: each row's `index` is its position. */
    ghost predicate Indexed()
      reads this`trackRows, Rows()`index
    {
      forall i :: 0 <= i < |trackRows| ==> trackRows[i].index == i
    }

    ghost predicate Valid()
      reads this`trackRows, this`pending, this`isPlaying, this`playbackAfterId, this`nextAfterId
      reads Rows()`grid, Rows()`index
    {
      Sound() && Scheduled() && Indexed()
    }

    lemma SoundViews()
      requires Sound()
      ensures ValidViews(BeatViews(trackRows))
    {
      assert forall i :: 0 <= i < |trackRows| ==> trackRows[i] in trackRows;
    }

    /** A new app: stopped, BPM entry "120", one fresh row. With no folder under
        `sounds/`, `__init__` raises in its `add_row` and there is no app. */
    constructor(folders: seq<string>, listing: map<string, seq<string>>)
      requires folders != []
      ensures Valid()
      ensures |trackRows| == 1 && fresh(trackRows[0]) && trackRows[0].grid == ZeroRow(STEPS)
      ensures !isPlaying && pending == None && playbackAfterId == None
      ensures bpmText == IntToDecimal(Sequencer.DEFAULT_BPM)
    {
      trackRows := [];
      isPlaying := false;
      playbackAfterId := None;
      pending := None;
      nextAfterId := 0;
      sounds := [];
      bpmText := IntToDecimal(Sequencer.DEFAULT_BPM);
      new;
      var raised := AddRow(folders, listing);
    }

    /** Typing into the BPM entry. */
    method SetBpmText(text: string)
      modifies this`bpmText
      ensures bpmText == text
    {
      bpmText := text;
    }

    /** `add_row`: a fresh row at the end, indexed by its position. With no folder under
        `sounds/`, the new row's `get_folders()[0]` raises `IndexError` before the row is
        appended, so nothing is added. */
    method AddRow(folders: seq<string>, listing: map<string, seq<string>>) returns (raised: bool)
      requires Valid()
      modifies this`trackRows
      ensures Valid()
      ensures raised <==> folders == []
      ensures raised ==> trackRows == old(trackRows)
      ensures !raised ==> |trackRows| == |old(trackRows)| + 1 && trackRows[..|old(trackRows)|] == old(trackRows)
      ensures !raised ==> var r := trackRows[|old(trackRows)|];
        fresh(r) && r.grid == ZeroRow(STEPS) && !r.muted && r.index == |old(trackRows)| &&
        r.folder == folders[0] && r.file == Sequencer.FirstWav(listing, folders[0], "")
    {
      if folders == [] {
        return true;
      }
      var row := new BeatRow(|trackRows|, folders, listing);
      trackRows := trackRows + [row];
      return false;
    }

    /** `refresh_rows`: renumber the rows by position; nothing else of a row changes. */
    method RefreshRows()
      requires Sound() && Scheduled()
      modifies Rows()`index
      ensures Valid()
    {
      var i := 0;
      while i < |trackRows|
        invariant 0 <= i <= |trackRows|
        invariant forall j :: 0 <= j < i ==> trackRows[j].index == j
        invariant Sound()
      {
        trackRows[i].index := i;
        i := i + 1;
      }
    }

    /** `remove_row`: a listed row is dropped and the rest, in their order, renumbered;
        an unlisted row changes nothing. */
    method RemoveRow(row: BeatRow)
      requires Valid()
      modifies this`trackRows, Rows()`index
      ensures Valid()
      ensures trackRows == Sequencer.Without(old(trackRows), row)
      ensures forall r :: r in trackRows <==> r in old(trackRows) && r != row
    {
      Sequencer.WithoutMembers(trackRows, row);
      Sequencer.WithoutDistinct(trackRows, row);
      if row in trackRows {
        trackRows := Sequencer.Without(trackRows, row);
        RefreshRows();
      }
    }

    /** `self.playback_after_id = self.root.after(beat_duration_ms, lambda: step(col))`. */
    method Schedule(col: int, bpm: int)
      requires Scheduled() && isPlaying && pending == None && 0 <= col < STEPS && bpm > 0
      modifies this`pending, this`playbackAfterId, this`nextAfterId
      ensures Scheduled()
      ensures pending == Some(Sequencer.Timer(old(nextAfterId), col, bpm))
      ensures playbackAfterId == Some(old(nextAfterId)) && nextAfterId == old(nextAfterId) + 1
    {
      pending := Some(Sequencer.Timer(nextAfterId, col, bpm));
      playbackAfterId := Some(nextAfterId);
      nextAfterId := nextAfterId + 1;
    }

    /** The `step(col)` closure. Stopped: it triggers nothing and schedules nothing.
        Playing: one tick over the cached rows, then `step((col + 1) % STEPS)` again
        after `int(60000 / bpm / 2)` ms. It never raises. */
    method Step(col: int, bpm: int) returns (events: seq<Trigger>)
      requires Valid() && pending == None && 0 <= col < STEPS && bpm > 0
      modifies this`pending, this`playbackAfterId, this`nextAfterId
      ensures Valid() && ValidViews(BeatViews(trackRows))
      ensures !isPlaying ==> events == [] && unchanged(this)
      ensures isPlaying ==>
        && events == BeatTick(BeatViews(trackRows), sounds, col)
        && pending == Some(Sequencer.Timer(old(nextAfterId), (col + 1) % STEPS, bpm))
        && playbackAfterId == Some(old(nextAfterId))
    {
      SoundViews();
      if !isPlaying {
        return [];
      }
      events := BeatTickRows(trackRows, sounds, col);
      Schedule((col + 1) % STEPS, bpm);
    }

    /** The event loop running the pending `after` callback, if there is one. */
    method FireTimer() returns (events: seq<Trigger>)
      requires Valid()
      modifies this`pending, this`playbackAfterId, this`nextAfterId
      ensures Valid()
      ensures old(pending) == None ==> unchanged(this) && events == []
      ensures ValidViews(BeatViews(trackRows))
      ensures old(pending).Some? ==>
        && events == BeatTick(BeatViews(trackRows), sounds, old(pending).value.col)
        && pending == Some(Sequencer.Timer(old(nextAfterId), (old(pending).value.col + 1) % STEPS, old(pending).value.bpm))
    {
      SoundViews();
      if pending == None {
        return [];
      }
      var t := pending.value;
      pending := None;
      events := Step(t.col, t.bpm);
    }

    /** `stop_playback`: when playing, clear the flag and cancel the pending tick. */
    method StopPlayback()
      modifies this`isPlaying, this`pending
      requires Valid()
      ensures Valid()
      ensures !isPlaying
      ensures old(isPlaying) ==> pending == None
      ensures !old(isPlaying) ==> pending == old(pending)
    {
      if isPlaying {
        isPlaying := false;
        if playbackAfterId.Some? {
          if pending.Some? && pending.value.id == playbackAfterId.value {
            pending := None;
          }
        }
      }
    }

    /** `play_sequence`. Already playing, or a BPM entry that is not a positive integer:
        nothing happens. Otherwise: one cache entry per row, the playing flag set and
        `step(0)` run, which schedules column 1. */
    method PlaySequence(loadable: set<string>) returns (events: seq<Trigger>)
      requires Valid()
      modifies this`sounds, this`isPlaying, this`pending, this`playbackAfterId, this`nextAfterId
      ensures Valid()
      ensures old(isPlaying) || ParsePositive(bpmText).None? ==> unchanged(this) && events == []
      ensures !old(isPlaying) && ParsePositive(bpmText).Some? ==>
        && ValidViews(BeatViews(trackRows))
        && sounds == SoundCache(BeatViews(trackRows), loadable)
        && isPlaying
        && events == BeatTick(BeatViews(trackRows), sounds, 0)
        && pending == Some(Sequencer.Timer(old(nextAfterId), 1, ParsePositive(bpmText).value))
    {
      if isPlaying {
        return [];
      }
      var parsed := ParsePositive(bpmText);
      if parsed.None? {
        return [];
      }
      events := StartPlayback(parsed.value, loadable);
    }

    /** The rest of `play_sequence` once the tempo is known: the cache, the playing flag
        and `step(0)`, which schedules column 1. */
    method StartPlayback(bpm: int, loadable: set<string>) returns (events: seq<Trigger>)
      requires Valid() && !isPlaying && bpm > 0
      modifies this`sounds, this`isPlaying, this`pending, this`playbackAfterId, this`nextAfterId
      ensures Valid() && isPlaying && ValidViews(BeatViews(trackRows))
      ensures sounds == SoundCache(BeatViews(trackRows), loadable)
      ensures events == BeatTick(BeatViews(trackRows), sounds, 0)
      ensures pending == Some(Sequencer.Timer(old(nextAfterId), 1, bpm))
    {
      var cache, first := FirstBeatTick(trackRows, loadable);
      sounds := cache;
      isPlaying := true;
      events := first;
      Schedule(1, bpm);
    }

    /** The Play/Stop button. */
    method TogglePlayback(loadable: set<string>) returns (events: seq<Trigger>)
      requires Valid()
      modifies this`sounds, this`isPlaying, this`pending, this`playbackAfterId, this`nextAfterId
      ensures Valid()
      ensures old(isPlaying) ==> !isPlaying && pending == None && events == []
      ensures !old(isPlaying) ==> (isPlaying <==> ParsePositive(bpmText).Some?)
    {
      if isPlaying {
        StopPlayback();
        return [];
      }
      events := PlaySequence(loadable);
    }

    /** `export_sequence`: with a valid BPM, the mix of every set step of every unmuted
        row whose sample decodes, over a loop of `int(beat * STEPS)` ms, repeated `bars`
        times and written to `zoutputs/<filename>`. */
    method ExportSequence(filename: string, bars: int, decodable: set<string>) returns (r: Result<Mix, ExportError>)
      requires Valid()
      ensures ParsePositive(bpmText).None? ==> r == Failure(InvalidBpm)
      ensures ParsePositive(bpmText).Some? ==>
        ValidSources(ExportSources(BeatViews(trackRows), decodable)) &&
        r == Success(Mix(LoopMs(ParsePositive(bpmText).value),
                         PlanOverlays(ExportSources(BeatViews(trackRows), decodable), ParsePositive(bpmText).value),
                         bars, Join(Sequencer.OUTPUT_DIR, filename)))
    {
      var parsed := ParsePositive(bpmText);
      if parsed.None? {
        return Failure(InvalidBpm);
      }
      var bpm := parsed.value;
      var ov := PlanBeatExport(trackRows, bpm, decodable);
      return Success(Mix(LoopMs(bpm), ov, bars, Join(Sequencer.OUTPUT_DIR, filename)));
    }

    /** `do_export` of the export dialog: a bar count that is not a positive integer is
        rejected before anything is exported; otherwise `export_sequence` runs with it. */
    method DoExport(filename: string, barsText: string, decodable: set<string>) returns (r: Result<Mix, ExportError>)
      requires Valid()
      ensures ParsePositive(barsText).None? ==> r == Failure(InvalidBars)
      ensures ParsePositive(barsText).Some? && ParsePositive(bpmText).None? ==> r == Failure(InvalidBpm)
      ensures ParsePositive(barsText).Some? && ParsePositive(bpmText).Some? ==>
        ValidSources(ExportSources(BeatViews(trackRows), decodable)) &&
        r == Success(Mix(LoopMs(ParsePositive(bpmText).value),
                         PlanOverlays(ExportSources(BeatViews(trackRows), decodable), ParsePositive(bpmText).value),
                         ParsePositive(barsText).value, Join(Sequencer.OUTPUT_DIR, filename))) &&
        r.value.bars > 0
    {
      var bars := ParsePositive(barsText);
      if bars.None? {
        return Failure(InvalidBars);
      }
      r := ExportSequence(filename, bars.value, decodable);
    }
  }

  /** The dialog's defaults, "nba.wav" and `str(REPEATS)`, export four bars to
      `zoutputs/nba.wav`. */
  lemma DefaultExportDialog()
    ensures ParsePositive(IntToDecimal(REPEATS)) == Some(4)
    ensures Join(Sequencer.OUTPUT_DIR, DEFAULT_EXPORT_NAME) == "zoutputs/nba.wav"
  {
    IntToDecimalRoundTrip(REPEATS);
  }
}
