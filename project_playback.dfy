/** The offline renderer of the mini sequencer (project/playback.py): each track's
    selected sample overlaid at every set step of its grid row, the loop repeated
    `REPEATS` times and written to `OUTPUT_DIR/OUTPUT_FILENAME`. Unlike the two other
    exporters it has no mute flag. Decoding is abstracted by the set `decodable` of
    paths pydub reads. */
module Playback {
  import opened Wrappers
  import opened Text
  import opened Pitch
  import opened Timing
  import opened Render
  import opened Settings
  import Sequencer

  /** `os.path.join("sounds", track["folder"], sample_name)`. */
  function SamplePath(t: Track, sample: string): string
  {
    Join3(SOUNDS_DIR, t.folder, sample)
  }

  /** A grid with a row of `STEPS` cells for each of the first `n` tracks. */
  predicate GridFits(grid: seq<seq<int>>, n: nat)
  {
    |grid| >= n && forall i :: 0 <= i < n ==> |grid[i]| == STEPS
  }

  /** What track `i` contributes: its selected sample and grid row when the sample
      decodes, nothing otherwise. */
  function PlaybackSources(grid: seq<seq<int>>, selected: seq<string>, tracks: seq<Track>, decodable: set<string>): (srcs: seq<TrackSource>)
    requires GridFits(grid, |tracks|) && |selected| >= |tracks|
    ensures |srcs| == |tracks| && ValidSources(srcs)
    ensures forall i :: 0 <= i < |tracks| ==>
      srcs[i] == if SamplePath(tracks[i], selected[i]) in decodable then Use(SamplePath(tracks[i], selected[i]), grid[i]) else Skip
  {
    seq(|tracks|, i requires 0 <= i < |tracks| =>
      if SamplePath(tracks[i], selected[i]) in decodable then Use(SamplePath(tracks[i], selected[i]), grid[i]) else Skip)
  }

  /** `play_sequence(grid, selected_samples, bpm, tracks)`. A BPM of 0 or less is
      rejected before anything is read; otherwise every set cell of every track whose
      sample decodes is overlaid once, and the loop is repeated `REPEATS` times. */
  method PlaySequence(grid: seq<seq<int>>, selected: seq<string>, bpm: int, tracks: seq<Track>, decodable: set<string>)
    returns (r: Result<Mix, ExportError>)
    requires bpm > 0 ==> GridFits(grid, |tracks|) && |selected| >= |tracks|
    ensures bpm <= 0 ==> r == Failure(InvalidBpm)
    ensures bpm > 0 ==>
      r == Success(Mix(LoopMs(bpm), PlanOverlays(PlaybackSources(grid, selected, tracks, decodable), bpm),
                       REPEATS, Join(OUTPUT_DIR, OUTPUT_FILENAME)))
  {
    if bpm <= 0 {
      return Failure(InvalidBpm);
    }
    ghost var srcs := PlaybackSources(grid, selected, tracks, decodable);
    var ov := [];
    var k := 0;
    while k < |tracks|
      invariant 0 <= k <= |tracks|
      invariant ov == PlanOverlays(srcs[..k], bpm)
    {
      var steps := TrackSteps(k, tracks[k], selected[k], grid[k], bpm, decodable);
      PlanSnoc(srcs, k, bpm);
      ov := ov + steps;
      k := k + 1;
    }
    assert srcs[..k] == srcs;
    return Success(Mix(LoopMs(bpm), ov, REPEATS, Join(OUTPUT_DIR, OUTPUT_FILENAME)));
  }

  /** The body of the track loop: the overlays of one track, none when its sample does
      not decode. */
  method TrackSteps(k: int, t: Track, sample: string, row: seq<int>, bpm: int, decodable: set<string>)
    returns (steps: seq<Overlay>)
    requires |row| == STEPS && bpm > 0
    ensures steps == TrackOverlays(k, if SamplePath(t, sample) in decodable then Use(SamplePath(t, sample), row) else Skip, bpm)
  {
    steps := [];
    var path := SamplePath(t, sample);
    if path in decodable {
      steps := Sequencer.ExportSteps(k, path, row, bpm);
    }
  }

  /** Cell `(i, col)` is overlaid exactly when its track's sample decodes and the cell
      is set; muting does not exist here, and a sample that fails to decode skips only
      its own track. */
  lemma PlaybackStepIff(grid: seq<seq<int>>, selected: seq<string>, tracks: seq<Track>, decodable: set<string>, bpm: int, i: int, col: int)
    requires GridFits(grid, |tracks|) && |selected| >= |tracks| && bpm > 0
    ensures (exists k :: OverlaysStep(PlanOverlays(PlaybackSources(grid, selected, tracks, decodable), bpm), k, i, col)) <==>
      0 <= i < |tracks| && 0 <= col < STEPS && SamplePath(tracks[i], selected[i]) in decodable && grid[i][col] != 0
  {
    var srcs := PlaybackSources(grid, selected, tracks, decodable);
    var ov := PlanOverlays(srcs, bpm);
    PlanSound(srcs, bpm);
    if exists k :: OverlaysStep(ov, k, i, col) {
      var k :| OverlaysStep(ov, k, i, col);
      assert IsStepOverlay(ov[k], srcs, bpm);
    }
    if 0 <= i < |tracks| && 0 <= col < STEPS && SamplePath(tracks[i], selected[i]) in decodable && grid[i][col] != 0 {
      PlanComplete(srcs, bpm, i, col);
    }
  }
}
