# Step-sequencer prototypes, modelled in Dafny

A family of small Python/tkinter step sequencers. Every prototype shows tracks as rows of
64 on/off steps, one eighth note per step at the tempo typed into a BPM entry. The try3 project
and the drum sequencer in main/gui1.py also play the rows live. Every prototype exports the
pattern as a WAV file: the loop of set steps, repeated a number of bars. The mini sequencer in
project/gui.py only exports (its one button is "Export Beat", project/gui.py:54-59). The try3
prototype adds two things:

- rows in Piano Roll mode, whose notes are edited in an 88-key piano-roll canvas inside a
  draggable floating panel, and played as slices of synth samples named by pitch;
- a one-off script that renames mislabelled synth samples.

The model covers five parts, plus that script:

- **Step grid and live playback.** Live playback covers the project in try3/sequencer.py and the
  drum-only sequencer in main/gui1.py. One tick of `step(col)` is a function from the rows to
  the list of sounds it triggers (`SequencerTick`, `BeatGui`). The objects that own the rows are
  classes whose methods are proved against those functions (`Sequencer.SequencerApp`,
  `BeatGui.BeatApp`). The pending `root.after` callback is a `Timer` value. The step grid of
  the mini sequencer in project/gui.py, which has no live playback, is `MiniGui.MiniSequencer`.
- **Offline render planning** (`Render`, `Playback`, `ExportSequence`). An export is the loop
  length, the list of overlays (track, step, sample, offset), the bar count and the output path.
  No audio data is modelled.
- **Piano-roll editors.** `Notes` holds the note intervals and the invariant lemmas. The classes
  are `PianoRoll.PianoRollCanvas` (try3, 88 keys, scrolling, grabbed edge) and
  `PianoRollBasic.PianoRollCanvas` (main, 24 rows, four-branch drag).
- **Pitch naming** (`Pitch`). Covers the synth sample names and both sidebars' labels.
- **Panel geometry** (`Panel`). Moving, resizing, hiding and restoring the floating panel.
- **Sample renaming** (`SampleRename`, try3/test.py). Covers the note parsing, the sorted file
  list, the rename plan, and the naming bug it contains (see Findings).

Shared pieces:

- `Text` models the Python built-ins the code relies on: `str(int)`, `int(text)` in base 10,
  `str.lower()` and `os.path.join`.
- `Timing` models the step length `60000 / bpm / 2` exactly, as the rational `30000 / bpm`
  truncated by `int()`.
- `Pattern` models the 0/1 step rows and grids.

In try3 a sample that fails to load or play does not halt the playback loop. The cache is
filled inside `try`/`except` blocks that print and store `None` (try3/sequencer.py:331-344).
The note loop catches a failing synth file, prints and continues (try3/sequencer.py:361-378).
Two other raises in a tick are not caught, and they halt the loop. The model follows the code:

- A drum row added while playing has no entry in `self.sounds`. If its step is set and it is
  unmuted, `self.sounds[row_index]` raises `IndexError` (try3/sequencer.py:380-382).
- Once a row has an open piano-roll panel, `row.pr_panel.pr_canvas.set_playhead(col)`
  (try3/sequencer.py:386-387) raises `AttributeError`: the piano-roll canvas has no such method.
  Every tick then raises, from the first one on (see Findings).

Either raise ends the `after` callback before it reschedules itself, so no later tick runs while
`is_playing` stays true (`SequencerTick.TickCrashIff`, `Sequencer.SequencerApp.Step`).

## Model

| member | source | states |
|---|---|---|
| Text.NatToDecimal | try3/sequencer.py:231 | `str(n)` of a natural is a non-empty string of decimal digits, one digit below 10 |
| Text.IntToDecimal | try3/sequencer.py:20 | `str(n)` / an f-string of an int: digits, with a leading `-` exactly for negatives |
| Text.NatToDecimalValue | try3/sequencer.py:231 | the digits printed for `n` have value `n` |
| Text.StripLeft | try3/sequencer.py:318 | `int()` drops a whitespace prefix: the result is a suffix of the input that starts with no space |
| Text.StripRight | try3/sequencer.py:318 | `int()` drops a whitespace suffix: the result is a prefix that ends with no space |
| Text.DropUnderscores | try3/sequencer.py:318 | the digits `int()` keeps after removing underscores; digit-only text is unchanged |
| Text.SignLength | try3/sequencer.py:318 | an optional sign takes at most one character |
| Text.ParseBody | try3/sequencer.py:318 | the unsigned part of an `int()` literal is readable exactly when it is a digit run with single underscores between digits |
| Text.ParseInt | try3/sequencer.py:318 | `int(text)` in base 10: whitespace stripped, an optional sign, a digit run with single underscores; anything else is the `ValueError` (None). `ParseTrimmed`, `ParseUnsigned`, `ParseNegative` and `IntToDecimalRoundTrip` state what it reads |
| Text.ParseTrimmed | try3/sequencer.py:318 | on trimmed text with a readable body, `int()` yields the body's value, negated after a `-` |
| Text.ParsePositive | try3/sequencer.py:317-323 | `int(text)` then `if bpm <= 0: raise`: a value exactly when `int()` succeeds with a positive result, and then that value |
| Text.NoSpaceTrim | try3/sequencer.py:318 | text with no space at either end is its own trimmed form |
| Text.ParseIntHasDigit | try3/sequencer.py:318 | text that `int()` accepts contains a decimal digit |
| Text.DigitsBody | try3/sequencer.py:318 | a non-empty digit string is a readable body with no space at either end |
| Text.ParseUnsigned | try3/sequencer.py:318 | `int()` reads a non-empty digit string as its value |
| Text.ParseNegative | project/gui.py:57 | `int()` reads `-` followed by digits as the negated value |
| Text.IntToDecimalRoundTrip | try3/sequencer.py:231 | `int(str(n)) == n` for every integer: the BPM text the app writes reads back as the BPM |
| Text.ToLower | try3/sequencer.py:20 | `str.lower()` keeps the length and lowers each character |
| Text.ToLowerAppend | try3/sequencer.py:20 | lowering distributes over concatenation |
| Text.ToLowerUnchanged | try3/sequencer.py:20 | text with no upper-case letter is its own lower case |
| Text.Join3Plain | try3/sequencer.py:25 | `os.path.join(a, b, c)` of separator-free names is `a/b/c` |
| Timing.TruncDiv | try3/sequencer.py:389 | `int()` of an exact quotient truncates toward zero, for both signs |
| Timing.TickDelayMs | try3/sequencer.py:389 | the live tick delay `int(60000 / bpm / 2)` is the largest `d` with `d * bpm <= 30000` |
| Timing.OffsetMs | try3/sequencer.py:436 | the export offset `int(col * beat)` is the largest `ms` with `ms * bpm <= col * 30000` |
| Timing.LoopMs | try3/sequencer.py:424 | the loop length `int(beat * STEPS)` is the offset of column 64 |
| Timing.Tempo120 | try3/sequencer.py:11 | at the default 120 BPM: a 250 ms tick, a 16000 ms loop, step 4 at 1000 ms, a 4-step note sliced to 2000 ms |
| Timing.NoteSliceMs | try3/sequencer.py:356-370 | the length of a note's slice, `int(steps_long * beat_duration_ms + BUFFER_MS)`; `NoteSliceIsLengthPlusBuffer` states it is the note's length in whole ms plus 1000 |
| Timing.NoteSliceIsLengthPlusBuffer | try3/sequencer.py:356-370 | a note's slice `int(steps_long * beat + 1000)` is its length in whole ms plus the 1000 ms buffer |
| Timing.DividingTempoAgrees | main/gui1.py:177 | when bpm divides 30000, `col` live ticks take exactly the export offset of `col` |
| Timing.LiveDriftBound | main/gui1.py:257 | in general, `col` truncated live ticks lag the export offset of `col` by 0 to `col - 1` ms, never ahead |
| Timing.OffsetMonotone | try3/sequencer.py:436 | later columns never get earlier export offsets |
| Timing.OffsetWithinLoop | try3/sequencer.py:434-437 | every column's offset lies inside the loop, and strictly before its end when a step lasts at least 1 ms |
| Pitch.NoUpperInDecimal | try3/sequencer.py:20 | an octave number contains no upper-case letter, no `/` and no `#` |
| Pitch.MidiToNoteName | try3/sequencer.py:16-20 | `midi_to_note_name(m)`, the synth sample name of a MIDI number; `MidiToNoteNameSpelled` states its spelling and `SequencerNameExamples` its values |
| Pitch.MidiToNoteNameSpelled | try3/sequencer.py:16-20 | `midi_to_note_name(m)` is the lower-case pitch class of `m % 12` followed by `m // 12 - 1`; `.lower()` changes nothing |
| Pitch.SequencerAgreesWithRoll | try3/sequencer.py:358 | the sample name of MIDI `m` is the lowered sidebar label of piano-roll row `108 - m` |
| Pitch.LowerClass | try3/sequencer.py:16-20 | lower-casing a sidebar label with pitch class `i` gives the sample-name spelling of the same class |
| Pitch.SequencerNameExamples | try3/sequencer.py:16-20 | 108 is "c8", 21 is "a0", 57 is "a3" |
| Pitch.RollNoteName | try3/piano_roll.py:135-140 | the sidebar label of piano-roll row `r`, naming MIDI `108 - r`; `SequencerAgreesWithRoll` ties it to the sample name of the note the row plays, `RollNameExamples` gives its ends |
| Pitch.RollNameExamples | try3/piano_roll.py:135-140 | row 0 is labelled "C8" and row 87 "A0" |
| Pitch.BasicNoteName | main/piano_roll1.py:57-61 | the sidebar label of a row of the 24-row editor, octaves counted from 3; `BasicNameExamples` gives its ends and `MinorKeyIsSharp` ties it to the black-key shading |
| Pitch.BasicNameExamples | main/piano_roll1.py:57-61 | with 24 rows, row 0 is "B4" and row 23 is "C3" |
| Pitch.SynthSamplePath | try3/sequencer.py:22-26 | `synth_sample_path(m, folder)`, the file a piano-roll note plays; `SynthSamplePathPlain` states it is `sounds/<folder>/<name>.wav` |
| Pitch.SynthSamplePathPlain | try3/sequencer.py:22-26 | with a plain folder name, the synth sample path is `sounds/<folder>/<name>.wav` |
| Pitch.PlainAppend | try3/sequencer.py:22-26 | separator-free text before a plain component leaves it plain |
| Pitch.PlainLabel | try3/sequencer.py:22-26 | a pitch class, separator-free octave text and `.wav` form a plain file name |
| Pitch.PlainSampleName | try3/sequencer.py:22-26 | no synth sample file name holds a path separator |
| Pitch.SamplePathOf | try3/sequencer.py:25 | joining plain folder and file names under `sounds` gives `sounds/<folder>/<file>` |
| Pitch.MinorKeyIsSharp | main/piano_roll1.py:53-55 | a row counts as a black key exactly when its label contains `#` |
| Pitch.SharpClass | main/piano_roll1.py:53-58 | the black-key classes 1, 3, 6, 8, 10 are exactly the pitch classes spelled with `#` |
| Pitch.SharpLabel | main/piano_roll1.py:56-60 | a label with `#`-free octave text contains `#` exactly when its pitch class does |
| Pattern.Toggle | try3/sequencer.py:192 | `grid[col] = 1 - grid[col]` flips exactly that step between 0 and 1; all others stay |
| Pattern.ToggleTwice | main/gui1.py:63-64 | two toggles of a step restore the row |
| Pattern.ZeroRow | try3/sequencer.py:34 | `[0] * steps`: `steps` cells, all off |
| Pattern.ZeroGrid | project/gui.py:7 | the tracks-by-steps grid starts all zeros |
| Pattern.ToggleCell | project/gui.py:13 | flipping `grid[row][col]` changes that row by a toggle and no other row |
| Pattern.ToggleCellKeepsGrid | project/gui.py:12-13 | a flip keeps a 0/1 grid, turns the cell to `1 - v` and leaves every other cell |
| Pattern.ToggleCellTwice | project/gui.py:13 | two flips of a cell restore the grid |
| Notes.HasOverlap | try3/piano_roll.py:148-154 | true exactly when some note, other than the excluded dict, lies on the row and meets `[start, end]` |
| Notes.FindNoteAt | try3/piano_roll.py:142-146 | none exactly when no note covers the cell; otherwise the first covering note in list order |
| Notes.IsRowPlaying | try3/piano_roll.py:129-133 | true exactly when some note lies on the row |
| Notes.RemoveCovering | try3/piano_roll.py:209 | the right-click filter keeps exactly the notes not covering the cell |
| Notes.RemoveCoveringAppend | try3/piano_roll.py:209 | the filter works piecewise on concatenations, so the survivors keep their order |
| Notes.RemoveCoveringNone | main/piano_roll1.py:122 | a list in which no note covers the cell is unchanged |
| Notes.Put | try3/piano_roll.py:192 | mutating the dragged dict changes every list entry that is that dict, and nothing else |
| Notes.CellOverlapIsCover | try3/piano_roll.py:176 | a one-cell overlap check succeeds exactly when `find_note_at` finds a note, so after an empty `find_note_at` it always passes |
| Notes.OverlapExcluding | try3/piano_roll.py:150 | excluding a note only removes overlaps |
| Notes.FreeSubrange | main/piano_roll1.py:106 | a range that meets no other note has every sub-range free |
| Notes.FreeUnion | main/piano_roll1.py:100-104 | two adjacent free ranges make a free range |
| Notes.MemberIsFree | main/piano_roll1.py:69-75 | in a well-formed list every note meets no other note |
| Notes.AppendWellFormed | try3/piano_roll.py:176-178 | appending a fresh in-range note that meets nothing keeps the list well formed |
| Notes.PutWellFormed | try3/piano_roll.py:191-196 | giving the dragged dict an in-range, free span keeps the list well formed |
| Notes.ConsWellFormed | try3/piano_roll.py:148-154 | a list is well formed exactly when its tail is, its head is in range, and the head is distinct from and disjoint with every later note |
| Notes.RemoveCoveringWellFormed | try3/piano_roll.py:209 | right-click deletion keeps the list well formed |
| Notes.RemoveCoveringFree | main/piano_roll1.py:122 | deletion keeps every free note free and current |
| Notes.RemoveCoveringIds | try3/piano_roll.py:209 | deletion keeps the note identities below the next fresh one |
| PianoRoll.ClampCol | try3/piano_roll.py:188 | `max(0, min(col, steps - 1))` is a column of the grid, and equals `col` when `col` already is one |
| PianoRoll.ChooseEdgeByHalf | try3/piano_roll.py:168-174 | on a note at least 12 px wide, the end edge is grabbed exactly when the press is right of the midpoint |
| PianoRoll.DragTarget | try3/piano_roll.py:189-196 | the start edge moves to `min(col_now, end)` and the end is untouched, symmetrically for the end edge; start <= end after either |
| PianoRoll.DragTargetInRange | try3/piano_roll.py:188-196 | with the clamped cursor, a dragged note stays inside the roll with start <= end |
| PianoRoll.PianoRollCanvas.constructor | try3/piano_roll.py:4-24 | the column origin is `sidebar + beat_offset * cell_width`, the view starts at C8, the height is 24 rows, there are no notes and no drag |
| PianoRoll.PianoRollCanvas.NotesVisible | try3/piano_roll.py:47-50 | `max(1, height // cell_height)`: the rows that fit, at least one |
| PianoRoll.PianoRollCanvas.MaxTop | try3/piano_roll.py:78 | the highest scroll position, 0 or where the last row is the last visible one |
| PianoRoll.PianoRollCanvas.CellAt | try3/piano_roll.py:157-160 | a cell is returned only when it is a visible, existing row and column, and the pixel lies inside it |
| PianoRoll.PianoRollCanvas.ScrollVertical | try3/piano_roll.py:77-86 | `top_note + delta` clamped to `[0, max_top]` |
| PianoRoll.PianoRollCanvas.Resize | try3/piano_roll.py:52-53 | a `<Configure>` updates the reported height and keeps the editor invariant |
| PianoRoll.PianoRollCanvas.LeftClick | try3/piano_roll.py:156-182 | out of range: no change. On a note: grab it with the edge chosen by the press, notes unchanged. On a free cell: append one `{row, col, col}` note and grab its end |
| PianoRoll.PianoRollCanvas.GrabNote | try3/piano_roll.py:162-174 | grabbing a covering note sets the drag state only |
| PianoRoll.PianoRollCanvas.PlaceNote | try3/piano_roll.py:176-181 | a free cell gets exactly one new one-cell note, dragged by its end |
| PianoRoll.PianoRollCanvas.DragMotion | try3/piano_roll.py:184-197 | the grabbed edge follows the clamped cursor when the new span meets no other note; otherwise nothing moves; no overlap ever arises |
| PianoRoll.PianoRollCanvas.DragRelease | try3/piano_roll.py:199-202 | the drag state is cleared and the notes kept |
| PianoRoll.PianoRollCanvas.RightClick | try3/piano_roll.py:204-210 | in range, the notes covering the cell are deleted and the rest kept in order; out of range, nothing changes |
| PianoRollBasic.DragStep | main/piano_roll1.py:99-110 | one motion moves at most one edge, and only to the cursor |
| PianoRollBasic.DragStepKeepsNote | main/piano_roll1.py:93-110 | no branch takes the note out of the roll, loses the pressed column or makes it meet another note |
| PianoRollBasic.ShrinkNeverRejected | main/piano_roll1.py:105-110 | inside the note, the edge on the cursor's side of the press always moves to the cursor |
| PianoRollBasic.ExtendIffFree | main/piano_roll1.py:99-104 | growing an edge happens exactly when the added cells are free |
| PianoRollBasic.PianoRollCanvas.constructor | main/piano_roll1.py:4-19 | the roll is `notes` rows by `steps` columns with the shifted sidebar, no notes and no drag |
| PianoRollBasic.PianoRollCanvas.CellAt | main/piano_roll1.py:78-80 | a cell is returned only for an in-range row and column containing the pixel |
| PianoRollBasic.PianoRollCanvas.LeftClick | main/piano_roll1.py:77-91 | out of range: no change. On a note: grab it, notes unchanged. On a free cell: append one `{row, col, col}` note and grab it |
| PianoRollBasic.PianoRollCanvas.DragMotion | main/piano_roll1.py:93-112 | the dragged dict takes the four-branch step at the clamped cursor in every list entry; the list stays well formed |
| PianoRollBasic.PianoRollCanvas.DragRelease | main/piano_roll1.py:114-116 | the drag state is cleared |
| PianoRollBasic.PianoRollCanvas.RightClick | main/piano_roll1.py:118-122 | in range, the notes covering the cell are deleted; the list stays well formed |
| SequencerTick.NoteTrigger | try3/sequencer.py:355-376 | the slice one note plays at `col`, or none; `NoteTriggerFires` and `OneNoteOneTrigger` state when it fires and what it plays |
| SequencerTick.NoteTriggers | try3/sequencer.py:354-378 | the note loop of a piano-roll row; `NoteTriggersIff` states it plays exactly the firing notes |
| SequencerTick.OneNoteOneTrigger | try3/sequencer.py:354-363 | a note fires at most once, exactly when it starts at `col`, the row is unmuted and its synth file is readable |
| SequencerTick.SingleNoteTriggers | try3/sequencer.py:354 | the note loop over one note is that note's trigger |
| SequencerTick.NoteTriggerFires | try3/sequencer.py:355-376 | a note's trigger is the slice of the synth sample of MIDI `108 - row`, sized by the note's length |
| SequencerTick.NoteTriggersAppend | try3/sequencer.py:354 | each note contributes its own triggers, in list order |
| SequencerTick.NoteTriggersIff | try3/sequencer.py:354-378 | the note loop triggers exactly the notes that fire; an unreadable file skips only its note |
| SequencerTick.RowTick | try3/sequencer.py:349-387 | one row's body of `step(col)`: its triggers and whether it raises; `DrumHitIff`, `NoteHitIff` and `RowTickNamesRow` state what it plays |
| SequencerTick.Tick | try3/sequencer.py:347-387 | one `step(col)` over all rows, stopping at the first raise; `TickCrashIff` states when it raises and `TickEventsIff` what it plays |
| SequencerTick.TickCrashIff | try3/sequencer.py:380-387 | a tick raises exactly when some row has an open piano-roll panel (the missing `set_playhead`) or is an unmuted drum row with its step set and no cache entry |
| SequencerTick.TickSnoc | try3/sequencer.py:348 | the rows are processed in order, each appending its triggers |
| SequencerTick.TickCrashSticky | try3/sequencer.py:348-384 | once a row raises, the later rows add nothing |
| SequencerTick.TickEventsIff | try3/sequencer.py:348-387 | the tick's triggers are exactly the triggers of the rows reached before the first raise, the raising row's own included |
| SequencerTick.RowTickNamesRow | try3/sequencer.py:348 | every trigger of a row names that row |
| SequencerTick.DrumHitIff | try3/sequencer.py:379-384 | a drum row reached by the tick sounds exactly when its step is set, it is unmuted and its cache entry is a loaded sound |
| SequencerTick.NoteHitIff | try3/sequencer.py:349-378 | a piano-roll row reached by the tick triggers exactly the slices of its firing notes |
| SequencerTick.NoteHitFrom | try3/sequencer.py:349-378 | every note slice of a tick comes from a firing note of a reached row, which is a piano-roll row |
| SequencerTick.NoteHitTo | try3/sequencer.py:349-378 | every firing note of a piano-roll row that the tick reaches is played |
| SequencerTick.SoundCache | try3/sequencer.py:331-344 | `self.sounds` as `play_sequence` builds it: one entry per row, `None` for piano-roll rows and for files that fail to load; `FreshCacheTick` states what a tick over it plays |
| SequencerTick.FreshCacheTick | try3/sequencer.py:331-387 | with the cache just built from the same rows, a tick raises exactly when some row has an open panel, and a drum row sounds exactly when no earlier row has a panel and it is set, unmuted and its file loads |
| SequencerTick.PanelHaltsTick | try3/sequencer.py:386-387 | as written: a piano-roll row with an open panel ahead of a sounding drum row makes even the first tick raise, and the drum is never played |
| SequencerTick.WithoutPlayhead | try3/sequencer.py:386-387 | the same rows with the playhead call left out, every other field kept |
| SequencerTick.IntendedFreshTick | try3/sequencer.py:331-387 | with the playhead call left out, a tick over the fresh cache never raises, and a drum row sounds exactly when it is set, unmuted and its file loads |
| SequencerTick.StaleCacheAfterRemove | try3/sequencer.py:252-259 | the cache is indexed by position: after the first row is removed mid-playback, the survivor plays the removed row's sample |
| SequencerTick.ExportSource | try3/sequencer.py:426-433 | the sample one row contributes to the export, or none for piano-roll, muted and undecodable rows; `ExportSources` and `ExportStepIff` state what is overlaid |
| SequencerTick.ExportSources | try3/sequencer.py:426-433 | one source per row: piano-roll, muted and undecodable rows are skipped |
| SequencerTick.ExportStepIff | try3/sequencer.py:426-437 | step `col` of row `i` is overlaid exactly when the row is an unmuted drum row whose sample decodes and whose step is set |
| Render.StepOverlays | try3/sequencer.py:434-437 | the column loop adds at most one overlay per column |
| Render.PlanOverlays | main/gui1.py:261-272 | the overlays of all tracks, track by track; `PlanSound`, `PlanComplete` and `PlanExactlyOnce` state that it holds each set step exactly once, in order |
| Render.PlanSnoc | try3/sequencer.py:426 | one more row appends that row's overlays to the plan |
| Render.StepOverlaysSound | try3/sequencer.py:434-437 | each overlay of the column loop is a set step of that row, at its offset, with strictly ascending columns |
| Render.StepOverlaysEach | try3/sequencer.py:434-437 | each overlay of the first `n` columns is a set step of that track below `n`, with the track's sample, at its offset |
| Render.StepOverlaysAscending | try3/sequencer.py:434-437 | the columns of a track's overlays strictly ascend |
| Render.StepOverlaysComplete | try3/sequencer.py:434-437 | every set step has its overlay |
| Render.PlanSound | main/gui1.py:261-272 | every planned overlay is a set step of a used track, ordered by track, then by column |
| Render.PlanComplete | main/gui1.py:261-272 | every set step of a used track is overlaid |
| Render.LastTrackComplete | main/gui1.py:261-272 | a set step of the last used track is overlaid after the overlays of the tracks before it |
| Render.PlanExactlyOnce | project/playback.py:30-33 | each set step is overlaid exactly once, at `int(col * beat)`, with its track's sample |
| Render.PlanWithinLoop | try3/sequencer.py:424-437 | no overlay is placed past the end of the loop |
| Render.Shifted | try3/sequencer.py:438 | moving the overlays later keeps their number |
| Render.Repeated | try3/sequencer.py:438 | `loop * bars`: the overlays of each bar, shifted by the loop length; `RepeatedLength` and `RepeatedAt` state its size and contents |
| Render.RepeatedLength | try3/sequencer.py:438 | `loop * bars` holds `bars` copies of the overlays |
| Render.RepeatedAt | try3/sequencer.py:438 | overlay `j` of bar `b` is overlay `j` of the loop, `b * loop_ms` later |
| Render.Export120Example | try3/sequencer.py:423-438 | at 120 BPM with steps 0 and 4 set: a 16000 ms loop, overlays at 0 and 1000 ms, and a 64000 ms file over four bars |
| Render.StepOverlaysTail | try3/sequencer.py:435 | columns that are not set add nothing |
| Sequencer.WavFiles | try3/sequencer.py:120 | the listing's names ending in `.wav`, in order |
| Sequencer.WavFilesFirst | try3/sequencer.py:122-123 | the first `.wav` offered is the first `.wav` of the listing |
| Sequencer.FirstWav | try3/sequencer.py:114-123 | the selection changes only to a `.wav` listed in that folder |
| Sequencer.TrackRow.constructor | try3/sequencer.py:29-107 | a new row is an all-off Drum Pad row, unmuted, on the first folder and its first `.wav` |
| Sequencer.TrackRow.UpdateFileList | try3/sequencer.py:114-123 | the first `.wav` of the folder is selected when there is one; nothing else changes |
| Sequencer.TrackRow.SelectFolder | try3/sequencer.py:61 | picking a folder refreshes the selected file from it |
| Sequencer.TrackRow.SelectFile | try3/sequencer.py:63-65 | picking a file changes only the file |
| Sequencer.TrackRow.SetMute | try3/sequencer.py:56 | the mute box changes only the mute flag |
| Sequencer.TrackRow.SetInstrument | try3/sequencer.py:125-151 | Drum Pad keeps a still-listed folder, else takes the first, and refreshes the files; Piano Roll switches to `synth` when it exists |
| Sequencer.TrackRow.OnCanvasClick | try3/sequencer.py:187-193 | in Drum Pad mode a click on column `x // cell_width` flips exactly that step; Piano Roll mode and columns outside the row change nothing |
| Sequencer.ViewsOf | try3/sequencer.py:350-353 | a tick sees the open panel's notes when the row has one, else the row's saved notes |
| Sequencer.Without | try3/sequencer.py:258 | `list.remove` drops one entry when present and changes nothing otherwise |
| Sequencer.WithoutSplits | try3/sequencer.py:258 | removal keeps the rows before and after it, in order |
| Sequencer.WithoutMembers | main/gui1.py:157 | with rows listed once, removal drops exactly that row |
| Sequencer.SplitMember | try3/sequencer.py:258 | cutting position `i` out of a repeat-free list removes exactly that entry |
| Sequencer.WithoutDistinct | try3/sequencer.py:258 | every other row stays listed once |
| Sequencer.PlayNotes | try3/sequencer.py:354-378 | the note loop emits exactly the note triggers, in order |
| Sequencer.TickRows | try3/sequencer.py:348-387 | the row loop's triggers and crash flag are those of the tick function, stopping at the first raise |
| Sequencer.RowStep | try3/sequencer.py:349-387 | one row's body is that row's tick, including the raise of its panel's playhead call |
| Sequencer.BuildCache | try3/sequencer.py:331-344 | one sound entry and one note-cache entry per row, as the tick functions define them |
| Sequencer.FirstTick | try3/sequencer.py:331-390 | the cache is the one built from the rows; the first `step(0)` is the tick over them, and it raises exactly when some row has an open panel |
| Sequencer.PanelsOfRows | try3/sequencer.py:292-298 | when every panel belongs to a row, some row has an open panel exactly when there is one |
| Sequencer.PlanExport | try3/sequencer.py:426-437 | the nested loops produce exactly the planned overlays |
| Sequencer.ExportRow | try3/sequencer.py:426-437 | one row contributes the planned overlays of its export source: none when it is skipped |
| Sequencer.ExportSteps | try3/sequencer.py:434-437 | the column loop produces the step overlays of the row |
| Sequencer.SequencerApp.SoundViews | try3/sequencer.py:348 | the rows as a tick sees them are 64-step views |
| Sequencer.SequencerApp.constructor | try3/sequencer.py:219-242 | stopped, BPM text "120", no panels, one fresh row |
| Sequencer.SequencerApp.SetBpmText | try3/sequencer.py:230-231 | typing changes only the BPM text |
| Sequencer.SequencerApp.AddRow | try3/sequencer.py:244-250 | a fresh row is appended, indexed by its position, with `folders[0]` (or "" when there is none) and that folder's first `.wav` selected; the others and the playback state stay |
| Sequencer.SequencerApp.RefreshRows | try3/sequencer.py:261-264 | every row is renumbered by its position; nothing else of a row changes |
| Sequencer.SequencerApp.RemoveRow | try3/sequencer.py:252-259 | the row's panel is closed, exactly that row is removed, and the survivors keep order and contents and are renumbered |
| Sequencer.SequencerApp.OpenPianoRoll | try3/sequencer.py:266-293 | a Piano Roll row without a panel gets one holding a copy of its saved notes; otherwise nothing changes |
| Sequencer.SequencerApp.PanelEdited | try3/sequencer.py:283-291 | an edit changes only that open panel's notes |
| Sequencer.SequencerApp.PanelUnmapped | try3/sequencer.py:301-304 | `<Unmap>` saves the panel's notes on the row; what a tick sees is unchanged |
| Sequencer.SequencerApp.PanelDestroyed | try3/sequencer.py:295-299 | `<Destroy>` forgets the panel; the row keeps its last saved notes |
| Sequencer.SequencerApp.Schedule | try3/sequencer.py:389 | a single pending timer for the given column, named by a new `after` id |
| Sequencer.SequencerApp.Step | try3/sequencer.py:347-389 | the tick over the current rows, then the next tick at `(col + 1) % 64`; after a raise of either kind nothing is scheduled |
| Sequencer.SequencerApp.FireTimer | try3/sequencer.py:389 | running the pending callback is a `Step` at its column, raises included; with none pending nothing changes |
| Sequencer.SequencerApp.StopPlayback | try3/sequencer.py:392-402 | when playing, the flag is cleared and the pending tick cancelled, and the missing `clear_playhead` then raises exactly when a panel is open; otherwise nothing changes |
| Sequencer.SequencerApp.PlaySequence | try3/sequencer.py:314-390 | already playing or a non-positive or non-integer BPM: no change. Otherwise: panels synced, cache built, flag set, first tick run; it raises exactly when a panel is open, and column 1 is scheduled exactly when it does not |
| Sequencer.SequencerApp.SyncPanels | try3/sequencer.py:326-329 | each open panel's notes are saved on its row; what a tick sees is unchanged |
| Sequencer.SequencerApp.StartPlayback | try3/sequencer.py:331-390 | the cache and the playing flag are set; the first tick raises exactly when a panel is open, and only a tick that does not raise schedules column 1 |
| Sequencer.SequencerApp.TogglePlayback | try3/sequencer.py:306-312 | playing: stops, no tick, raising exactly when a panel is open. Stopped: starts exactly when the BPM is a positive integer, and the first tick raises exactly when a panel is open |
| Sequencer.SequencerApp.ExportSequence | try3/sequencer.py:414-442 | invalid BPM fails; otherwise the loop of `int(beat * 64)` ms with the planned overlays, `bars` repeats, written to `zoutputs/<filename>` |
| Sequencer.SequencerApp.ShowExportDialog | try3/sequencer.py:404-412 | a cancelled or empty filename, or a cancelled bar count, exports nothing; otherwise exactly the mix `export_sequence` builds: invalid BPM fails, else the `int(beat * 64)` ms loop with the planned overlays, that many bars, `zoutputs/<filename>` |
| BeatGui.ButtonColor | main/gui1.py:67-83 | the colour of a step button from the mute flag, the step and the highlight; `ButtonColorDistinguishes` and `ButtonColorInjective` state what the colour shows |
| BeatGui.ButtonColorDistinguishes | main/gui1.py:67-83 | a set step or the playing column never shows a base colour |
| BeatGui.ButtonColorInjective | main/gui1.py:67-83 | the colour determines whether the step is set and playing, whether it is muted when set or playing, and the base colour's group otherwise |
| BeatGui.RowColors | main/gui1.py:85-87 | `update_all_buttons` gives each step the colour of its state |
| BeatGui.MuteRecolorsSetSteps | main/gui1.py:72-75 | muting recolours exactly the set steps |
| BeatGui.BeatViews | main/gui1.py:195-200 | the rows as the tick and the exporter see them |
| BeatGui.BeatRowTick | main/gui1.py:200-203 | one row's body of `step(col)` in the drum sequencer; `BeatTickUpToIff` states what it plays |
| BeatGui.BeatTickUpToIff | main/gui1.py:195-203 | over the first `n` rows, a trigger is exactly a set, unmuted row with a loaded sound |
| BeatGui.BeatTick | main/gui1.py:195-203 | one `step(col)` over the first `min(len(rows), len(sounds))` rows; `BeatTickIff` states exactly what it plays |
| BeatGui.BeatTickIff | main/gui1.py:195-203 | a row sounds exactly when it is among the first `len(sounds)` rows, set, unmuted and loaded; nothing else starts |
| BeatGui.BeatFreshTick | main/gui1.py:178-203 | with a fresh cache, a row sounds exactly when it is set, unmuted and its file loads |
| BeatGui.BeatAgreesUpTo | main/gui1.py:195-203 | on cached drum rows with no panel open, the first `n` rows of both ticks agree and neither raises |
| BeatGui.BeatAgreesWithTry3 | main/gui1.py:195-203 | with a cache entry per row and no panel open, the drum sequencer and the try3 sequencer trigger the same sounds |
| BeatGui.BeatRow.constructor | main/gui1.py:18-51 | all off, unmuted, the first folder and its first `.wav` |
| BeatGui.BeatRow.UpdateFileList | main/gui1.py:56-61 | the first `.wav` of the folder is selected when there is one |
| BeatGui.BeatRow.SelectFolder | main/gui1.py:34 | picking a folder refreshes the file from it |
| BeatGui.BeatRow.SelectFile | main/gui1.py:31 | picking a file sets it |
| BeatGui.BeatRow.SetMute | main/gui1.py:37 | the mute box sets the flag |
| BeatGui.BeatRow.ToggleStep | main/gui1.py:63-65 | flips exactly that step, and the button shows the new state's colour |
| BeatGui.BuildSounds | main/gui1.py:178-185 | one cache entry per row: the loaded sound or none |
| BeatGui.FirstBeatTick | main/gui1.py:178-208 | the cache and the triggers of `step(0)` |
| BeatGui.BeatTickRows | main/gui1.py:195-203 | the row loop yields exactly the tick's triggers |
| BeatGui.PlanBeatExport | main/gui1.py:261-272 | the nested loops produce exactly the planned overlays: muted and undecodable rows skipped |
| BeatGui.BeatApp.SoundViews | main/gui1.py:195 | the rows are 64-step views |
| BeatGui.BeatApp.constructor | main/gui1.py:97-131 | stopped, BPM text "120", one fresh row |
| BeatGui.BeatApp.SetBpmText | main/gui1.py:109-110 | typing sets the BPM text |
| BeatGui.BeatApp.AddRow | main/gui1.py:149-152 | with no folder under `sounds/` the row constructor raises and nothing changes; otherwise a fresh row is appended after the existing ones, indexed by its position, with `folders[0]` and its first `.wav` selected |
| BeatGui.BeatApp.RefreshRows | main/gui1.py:160-163 | rows are renumbered by position, nothing else changes |
| BeatGui.BeatApp.RemoveRow | main/gui1.py:154-158 | exactly that row is removed, the rest keep order and are renumbered; an unlisted row changes nothing |
| BeatGui.BeatApp.Schedule | main/gui1.py:206 | a single pending timer for the given column |
| BeatGui.BeatApp.Step | main/gui1.py:189-206 | stopped: no triggers and nothing scheduled; playing: the tick, then `(col + 1) % 64` scheduled |
| BeatGui.BeatApp.FireTimer | main/gui1.py:206 | the pending callback runs its `step`, and with none pending nothing changes |
| BeatGui.BeatApp.StopPlayback | main/gui1.py:210-218 | when playing, the flag is cleared and the tick cancelled |
| BeatGui.BeatApp.PlaySequence | main/gui1.py:165-208 | already playing or invalid BPM: no change; otherwise the cache, the flag, `step(0)` and column 1 scheduled |
| BeatGui.BeatApp.StartPlayback | main/gui1.py:177-208 | the cache, the playing flag and the first tick |
| BeatGui.BeatApp.TogglePlayback | main/gui1.py:133-139 | playing: stop; stopped: playing afterwards exactly when the BPM is a positive integer |
| BeatGui.BeatApp.ExportSequence | main/gui1.py:248-278 | invalid BPM fails; otherwise the loop with the planned overlays, `bars` repeats, `zoutputs/<filename>` |
| BeatGui.BeatApp.DoExport | main/gui1.py:234-244 | a bar count that is not a positive integer is rejected before exporting; otherwise exactly the mix `export_sequence` builds for that many bars: invalid BPM fails, else the loop with the planned overlays and `zoutputs/<filename>` |
| BeatGui.DefaultExportDialog | main/gui1.py:226-231 | the defaults export four bars to `zoutputs/nba.wav` |
| Settings.DefaultSelection | project/gui.py:35 | each drop-down starts on the track's first option |
| Settings.ShippedSettings | project/settings.py:3-15 | five tracks that each offer a sample, default picks as listed, output `./zoutputs/test.wav` |
| Playback.PlaybackSources | project/playback.py:20-28 | track `i` contributes its selected sample and row when the sample decodes, else nothing |
| Playback.PlaySequence | project/playback.py:7-38 | BPM <= 0 fails before any work; otherwise the loop with the planned overlays, 4 repeats, `./zoutputs/test.wav` |
| Playback.TrackSteps | project/playback.py:20-33 | one track contributes the overlays of its set steps when its sample decodes, and none otherwise |
| Playback.PlaybackStepIff | project/playback.py:20-33 | a cell is overlaid exactly when its sample decodes and the cell is set; there is no mute, and a failing sample skips only its track |
| MiniGui.CellColor | project/gui.py:12-15 | the colour `toggle_cell` paints a cell; `CellColorAgrees` states it is green exactly when set |
| MiniGui.CellColorAgrees | project/gui.py:14 | a cell is green exactly when set, with the same colours as an unmuted step of the beat sequencer |
| MiniGui.MiniSequencer.constructor | project/gui.py:7-26 | an all-zero 5 by 64 grid, first options selected, BPM text "120" |
| MiniGui.MiniSequencer.ToggleCell | project/gui.py:12-15 | flips exactly that cell and paints its button for the new value |
| MiniGui.MiniSequencer.SelectSample | project/gui.py:36 | a drop-down changes only its track's selection |
| MiniGui.MiniSequencer.SetBpmText | project/gui.py:24-25 | typing sets the BPM text |
| MiniGui.MiniSequencer.ExportBeat | project/gui.py:57 | non-integer text raises before `play_sequence` is called; an integer is passed on, and `play_sequence` rejects values <= 0 |
| MiniGui.ToggleCellRestores | project/gui.py:13 | two clicks on a cell restore the grid |
| MiniGui.DefaultBpmEntry | project/gui.py:25 | the default BPM text reads back as 120 |
| MiniGui.NegativeBpmEntry | project/gui.py:57 | "-5" passes `int()`, so only `play_sequence` rejects it |
| Panel.MoveTarget | try3/draggable_panel.py:109-117 | with a master, the position is clamped to `[0, master - size]`; unchanged when already inside; free without a master |
| Panel.MoveTargetEdges | try3/draggable_panel.py:116-117 | dragging past an edge lands on that edge; a panel larger than its master snaps to 0 |
| Panel.MoveTargetSettles | try3/draggable_panel.py:116 | clamping twice changes nothing |
| Panel.ResizeTarget | try3/draggable_panel.py:130-145 | "e"/"se" make the width `max(min_width, orig + dx)`, "s"/"se" likewise the height; other directions keep the size at the press |
| Panel.CornerIsBothEdges | try3/draggable_panel.py:141-143 | the corner resizes as the two edges at once |
| Panel.ResizeByZero | try3/draggable_panel.py:130-145 | a zero drag keeps a size that already meets the minimum |
| Panel.DraggablePanel.constructor | try3/draggable_panel.py:4-36 | placed at the given geometry, which is also the restore geometry; no move or resize in progress |
| Panel.DraggablePanel.OnConfigure | try3/draggable_panel.py:91-102 | records the current geometry for restoring |
| Panel.DraggablePanel.StartMove | try3/draggable_panel.py:105-107 | records the press point; nothing moves |
| Panel.DraggablePanel.DoMove | try3/draggable_panel.py:109-118 | the panel moves by the drag and stays inside a master it fits in |
| Panel.DraggablePanel.StartResize | try3/draggable_panel.py:121-128 | records the direction, the press point and the geometry at the press |
| Panel.DraggablePanel.DoResize | try3/draggable_panel.py:130-145 | the new size is the resize target, never below the minimum on a resized axis; the position is kept |
| Panel.DraggablePanel.Hide | try3/draggable_panel.py:148-150 | the panel is unplaced and its geometry kept |
| Panel.DraggablePanel.Restore | try3/draggable_panel.py:152-156 | the panel is placed at the recorded geometry |
| Panel.HideRestoreRoundTrip | try3/draggable_panel.py:91-156 | a recorded, hidden and restored panel comes back where it was |
| SampleRename.NoteToMidi | try3/test.py:15-17 | defined exactly for the twelve names of the `base` table; missing names raise `KeyError` |
| SampleRename.ParseOneChar | try3/test.py:29 | `int()` of one character succeeds exactly on a decimal digit, with that digit's value |
| SampleRename.ParseSpaceChar | try3/test.py:29 | `int()` of a lone whitespace character raises |
| SampleRename.ParseOtherChar | try3/test.py:29 | `int()` of a lone character that is neither whitespace nor a digit raises |
| SampleRename.ParseNote | try3/test.py:26-33 | `parse_note`: the lowered name and the octave digit, or the error its indexing or `int()` raises; `ParseNoteSplits` states when it succeeds and what it gives |
| SampleRename.ParseNoteSplits | try3/test.py:26-33 | both branches agree: the parse succeeds exactly on two or more characters ending in a digit, giving the lowered prefix and the digit |
| SampleRename.ScriptStarts | try3/test.py:35-39 | "a1" parses to ("a", 1), giving MIDI 33, and "a3" to ("a", 3), giving MIDI 57 |
| SampleRename.WrittenMidiToNoteName | try3/test.py:19-23 | `midi_to_note_name` as written, indexing the A-ordered `note_order`; `WrittenNameMisses` shows the name it gets wrong |
| SampleRename.WrittenNameMisses | try3/test.py:19-23 | as written, MIDI 57 is named "f#3", not "a3" |
| SampleRename.CorrectedNameInverts | try3/test.py:15-17 | C-ordered names invert `note_to_midi` for every note and octave |
| SampleRename.CorrectedFirstTarget | try3/test.py:7 | with C-ordered names the first target is "a3" |
| SampleRename.Candidates | try3/test.py:46-48 | the names looked for: twelve per octave |
| SampleRename.OctaveNames | try3/test.py:47-48 | one octave's names, in `note_order` |
| SampleRename.CandidateAt | try3/test.py:46-48 | candidate `i` is note `i % 12` of octave `lo + i / 12` |
| SampleRename.CandidatesSnoc | try3/test.py:46 | one more octave appends its twelve names |
| SampleRename.CandidateOfFile | try3/test.py:46-48 | every note name of an octave in range is looked for |
| SampleRename.FileOfCandidate | try3/test.py:46-48 | every name looked for is `<note><octave>.wav` for an octave in range |
| SampleRename.CandidatesBefore | try3/test.py:46-48 | an earlier name looked for has an earlier octave, or the same octave and an earlier `note_order` entry |
| SampleRename.OctaveFiles | try3/test.py:47-50 | the inner loop keeps exactly the listed names of one octave, in `note_order` order |
| SampleRename.Filter | try3/test.py:49-50 | the kept names are at most the candidates |
| SampleRename.FilterAppend | try3/test.py:49-50 | filtering works piecewise on concatenations |
| SampleRename.FilterMembers | try3/test.py:49-50 | a name is kept exactly when it is a candidate and listed |
| SampleRename.FilterOrder | try3/test.py:46-50 | the kept names come from strictly increasing candidate positions |
| SampleRename.FilterDistinct | try3/test.py:49-50 | filtering a list without repeats gives a list without repeats |
| SampleRename.FilesSorted | try3/test.py:42-50 | the nested loops yield exactly the filtered candidates |
| SampleRename.FilterPrefix | try3/test.py:49-50 | one more candidate is appended when listed |
| SampleRename.OctaveDone | try3/test.py:47-50 | one more octave appends its listed names |
| SampleRename.FilesSortedMembers | try3/test.py:42-50 | a name is in `files_sorted` exactly when it is listed and is `note + octave + ".wav"` for a note and an octave from `wrong_oct` to 5 |
| SampleRename.NoteShape | try3/test.py:12-16 | each `note_order` entry is a letter, optionally with `#`, and lies 9 semitones past its position |
| SampleRename.NoteOrderInjective | try3/test.py:12 | the twelve `note_order` entries are pairwise different |
| SampleRename.DecimalSuffix | try3/test.py:48 | the octave text before `.wav` is determined by the file name |
| SampleRename.LabelSplit | try3/test.py:48 | a note label followed by digits splits into label and digits in one way only |
| SampleRename.FileNameParts | try3/test.py:48 | equal file names have equal `note_order` entries and equal octave text |
| SampleRename.FileNameInjective | try3/test.py:48 | different (octave, note) pairs name different files |
| SampleRename.CandidatesDistinct | try3/test.py:46-48 | no name is looked for twice |
| SampleRename.CandidatePairDistinct | try3/test.py:46-48 | adding an octave keeps the names looked for pairwise different |
| SampleRename.NamesDiffer | try3/test.py:48 | different (octave, note) pairs give different file names |
| SampleRename.FilesSortedOrdered | try3/test.py:42-50 | `files_sorted` has no repeats and runs by octave, then by `note_order` |
| SampleRename.RenamePlan | try3/test.py:53-60 | the `i`-th sorted file moves to the name of MIDI `correct_start + i` in the same folder |
| SampleRename.CorrectedTargetsConsecutive | try3/test.py:53-56 | with C-ordered names, target `i` reads back as MIDI `correct_start + i` |

## Left out

- Drawing is not modelled: `draw_grid`, `highlight_column`, `clear_highlight`, widget construction and styling. `set_playhead` and `clear_playhead` (try3/sequencer.py:387, 401) are not drawing: the piano-roll canvas has no such methods, so each call raises `AttributeError`. The model keeps those raises (`SequencerTick.RowTick`, `Sequencer.SequencerApp.StopPlayback`). What a raise in `stop_playback` skips is the row highlights and the button label, and neither is modelled. Colours are modelled only as the values `update_button_color` and `toggle_cell` compute.
- `mix_colors` (try3/piano_roll.py:220-229) is float colour blending, which is not modelled.
- Audio (pygame and pydub) is abstracted. Loading is membership in a set of paths (`loadable`, `readable`, `decodable`). Playing is a trigger event, and rendering is a list of overlays. Sample data, slicing, `export` and `os.makedirs` are not modelled.
- `root.after` and `after_cancel` become a single pending `Timer` value with an id. Wall-clock time and drift at run time are not modelled; drift is bounded arithmetically in `Timing.LiveDriftBound`.
- `60000 / bpm / 2` is exact rational arithmetic with `int()` truncation. IEEE rounding at integer boundaries is not modelled; for tempos dividing 30000 (such as 120) the two agree.
- `Text.ParseInt` models base-10 `int()` with ASCII digits: it strips every character Python counts as whitespace, then reads a sign and digits with single underscores. Non-ASCII decimal digits, which `int()` also accepts, are not modelled.
- Filesystem listings (`os.listdir`, `os.path.isdir`, `os.path.isfile`) are parameters: a folder list and a map from folder to entries.
- `SampleRename.RenamePlan` returns the moves as a plan. `shutil.move` performing them one by one is not modelled; when a target equals a later source, that later file is overwritten.
- `SampleRename.ParseNote` reads only a single-digit octave, as `int(note_str[-1])` does.
- The synth sample naming is a parameter of the tick functions in `SequencerTick`. The app passes `Pitch.SynthSamplePath`.
- Piano-roll note dicts are values with an `id` standing for Python object identity. `pr_canvas.notes_list` copies are modelled as copies of the list, as `dict(n)` makes them.
- The try3 `pr_note_cache` is built (`Sequencer.BuildCache`) but never read, as in the source.
- Mouse-wheel and focus handlers are not modelled; only their effect, `scroll_vertical(±3)`, is, as `PianoRoll.PianoRollCanvas.ScrollVertical`.
- `lift()`, `winfo_ismapped()` and `restore_panel` on an already open panel in `open_piano_roll` are not modelled. The panel's geometry is modelled separately in `Panel`.
- Panel: Tk's `winfo_*` values are the fields last placed, and the master's size is an `Option` parameter. `_on_configure` runs when called (`OnConfigure`), not on Tk's event timing.
- `Panel.DraggablePanel.Restore`: the fallback `place(x=50, ...)` is not modelled. `_last_place_info` is set in `__init__` and never cleared, so the fallback cannot run.
- `Panel.DraggablePanel.constructor` starts `origX`/`origY` at the initial place. The source defines `_orig_x`/`_orig_y` only in `start_resize`, and nothing reads them.
- `main/gui1.py` `toggle_piano_roll` and its embedded `PianoRollCanvas` frame are not modelled: they only show or hide a frame.
- `main/songbasic.py` and `main/song2.py` are not modelled: they are one-off render scripts with hard-coded float positions, and `song2` fails on its own arguments.
- `try3/main.py` is not modelled: it only sets up the window.
- The Stop button's recolouring and the "Play"/"Stop" labels are not modelled, so neither is the relabelling that a raise in `toggle_playback` skips.
- `BeatGui.BeatRow.constructor` requires a folder under `sounds/`. With none, `get_folders()[0]` (main/gui1.py:35) raises `IndexError` and no row exists. `BeatGui.BeatApp.AddRow` models that raise: it reports it and adds nothing.
- `BeatGui.BeatApp.constructor` requires a folder under `sounds/`. With none, the `add_row` call in `__init__` (main/gui1.py:131) raises and no app exists.
- `BeatGui.BeatRow.UpdateFileList` takes the listing of the selected folder. A folder that is not a directory makes `os.listdir` (main/gui1.py:58) raise inside the variable trace. Tk reports the exception and the file selection stays as it was, which is what the model does.
- `print` messages are not modelled.
- `Text.ToLower` folds only ASCII `A`-`Z`, whereas `str.lower()` folds all of Unicode. Every string it lowers here is a note name built from ASCII letters, digits and `#`.
- `BeatGui.BeatApp.DoExport` passes any filename through, including the empty one. Its output path is then the directory `zoutputs/`, and the abstracted write of that path is where the source fails.

## Findings

| source | as written | input that shows it | evidently intended | confidence | as-written member | corrected member |
|---|---|---|---|---|---|---|
| try3/test.py:19-23 | `midi_to_note_name` takes the note from `note_order`, which starts at A, so it does not invert `note_to_midi` | MIDI 57 (`correct_start_midi` for "a3") is named "f#3", so the first file is renamed to `f#3.wav` instead of `a3.wav` | names in C order, as the sequencer's own `midi_to_note_name` spells them (try3/sequencer.py:16-20), so target `i` is the label of MIDI `correct_start + i` | not executed | SampleRename.WrittenNameMisses | SampleRename.CorrectedNameInverts |
| try3/sequencer.py:386-387 | `step` calls `row.pr_panel.pr_canvas.set_playhead(col)` for every row whose piano-roll panel is open, and the canvas has no `set_playhead`, so the call raises `AttributeError` and the tick is never rescheduled | open the piano roll of one row, add a drum row with step 0 set below it, press Play: the first tick raises before the drum row plays, and playback stops at once | a playhead drawn in the open piano roll (the canvas has `highlight_column`, try3/piano_roll.py:212) and no raise, so a tick over a fresh cache always completes | not executed | SequencerTick.PanelHaltsTick | SequencerTick.IntendedFreshTick |
