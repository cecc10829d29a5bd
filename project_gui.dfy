/** The window of the mini sequencer (project/gui.py): a tracks-by-steps 0/1 grid of
    buttons, a sample drop-down per track, a BPM entry and an Export button. Buttons
    are reduced to the colour a click paints them. */
module MiniGui {
  import opened Wrappers
  import opened Text
  import opened Timing
  import opened Pattern
  import opened Render
  import opened Settings
  import opened Playback
  import BeatGui

  /** The colour `toggle_cell` paints a cell holding `v`. */
  function CellColor(v: int, col: int): string
  {
    if v != 0 then "green" else BaseColor(col)
  }

  /** The mini sequencer paints cells as the beat sequencer paints unmuted steps. */
  lemma CellColorAgrees(v: int, col: int)
    requires v == 0 || v == 1
    ensures CellColor(v, col) == BeatGui.ButtonColor(false, v == 1, col, false)
    ensures CellColor(v, col) == "green" <==> v == 1
  {
  }

  class MiniSequencer {
    var grid: seq<seq<int>>
    var selected: seq<string>
    var bpmText: string

    ghost predicate Valid()
      reads this`grid, this`selected
    {
      IsStepGrid(grid, |TRACKS|, STEPS) && |selected| == |TRACKS|
    }

    /** `run_gui`'s state: an all-zero `len(TRACKS)` by `STEPS` grid, every drop-down
        on its first sample, the BPM entry "120". */
    constructor()
      ensures Valid()
      ensures grid == ZeroGrid(|TRACKS|, STEPS)
      ensures selected == DefaultSelection(TRACKS)
      ensures bpmText == IntToDecimal(DEFAULT_BPM)
    {
      ShippedSettings();
      grid := ZeroGrid(|TRACKS|, STEPS);
      selected := DefaultSelection(TRACKS);
      bpmText := IntToDecimal(DEFAULT_BPM);
    }

    /** `toggle_cell(row, col)`: flips that cell only and returns the colour its
        button is painted. */
    method ToggleCell(row: int, col: int) returns (color: string)
      requires Valid() && 0 <= row < |TRACKS| && 0 <= col < STEPS
      modifies this`grid
      ensures Valid()
      ensures grid == Pattern.ToggleCell(old(grid), row, col)
      ensures grid[row][col] == 1 - old(grid)[row][col]
      ensures forall r, c :: 0 <= r < |TRACKS| && 0 <= c < STEPS && (r, c) != (row, col) ==> grid[r][c] == old(grid)[r][c]
      ensures color == CellColor(grid[row][col], col)
    {
      ToggleCellKeepsGrid(grid, |TRACKS|, STEPS, row, col);
      grid := Pattern.ToggleCell(grid, row, col);
      color := CellColor(grid[row][col], col);
    }

    /** Choosing a sample in a track's drop-down. */
    method SelectSample(row: int, sample: string)
      requires Valid() && 0 <= row < |TRACKS|
      modifies this`selected
      ensures Valid()
      ensures selected == old(selected)[row := sample]
    {
      selected := selected[row := sample];
    }

    /** Typing into the BPM entry. */
    method SetBpmText(text: string)
      modifies this`bpmText
      ensures bpmText == text
    {
      bpmText := text;
    }

    /** The Export button: `play_sequence(grid, selected_samples, int(bpm_entry.get()),
        TRACKS)`. Text that is not an integer raises in the button's callback before
        `play_sequence` runs (`None`); an integer goes to `play_sequence`, which checks
        its sign. */
    method ExportBeat(decodable: set<string>) returns (r: Option<Result<Mix, ExportError>>)
      requires Valid()
      ensures ParseInt(bpmText).None? ==> r == None
      ensures ParseInt(bpmText).Some? && ParseInt(bpmText).value <= 0 ==> r == Some(Failure(InvalidBpm))
      ensures ParseInt(bpmText).Some? && ParseInt(bpmText).value > 0 ==>
        var bpm := ParseInt(bpmText).value;
        r == Some(Success(Mix(LoopMs(bpm), PlanOverlays(PlaybackSources(grid, selected, TRACKS, decodable), bpm),
                              REPEATS, Join(OUTPUT_DIR, OUTPUT_FILENAME))))
    {
      var parsed := ParseInt(bpmText);
      if parsed.None? {
        return None;
      }
      var mix := PlaySequence(grid, selected, parsed.value, TRACKS, decodable);
      return Some(mix);
    }
  }

  /** Two clicks on a cell restore the grid. */
  lemma ToggleCellRestores(g: seq<seq<int>>, row: int, col: int)
    requires IsStepGrid(g, |TRACKS|, STEPS) && 0 <= row < |TRACKS| && 0 <= col < STEPS
    ensures Pattern.ToggleCell(Pattern.ToggleCell(g, row, col), row, col) == g
  {
    ToggleCellTwice(g, row, col);
  }

  /** The default BPM text is read back as 120. */
  lemma DefaultBpmEntry()
    ensures ParseInt(IntToDecimal(DEFAULT_BPM)) == Some(120)
  {
    IntToDecimalRoundTrip(DEFAULT_BPM);
  }

  /** "-5" is an integer, so it reaches `play_sequence`, which rejects it. */
  lemma NegativeBpmEntry()
    ensures ParseInt("-5") == Some(-5)
  {
    var d := "-5"[1..];
    assert d == "5" && AllDigits(d);
    assert DigitsValue(d) == DigitsValue([]) * 10 + DigitValue('5') == 5;
    ParseNegative("-5");
  }
}
