/** Offline render planning, shared by the three exporters (try3 and main
    `export_sequence`, project `play_sequence`).

    The audio library is abstracted: a render is the silent loop's length, the list
    of overlays placed on it (which sample, at which offset), the number of times the
    loop is repeated and the output path. No sample data is modelled. */
module Render {
  import opened Timing

  datatype ExportError = InvalidBpm | InvalidBars

  /** `loop.overlay(sound, position=offsetMs)` for the set step `col` of track `track`. */
  datatype Overlay = Overlay(track: int, col: int, sample: string, offsetMs: int)

  /** What one track contributes to an export: nothing (skipped), or the sample that
      loaded for it together with its step row. */
  datatype TrackSource = Skip | Use(sample: string, grid: seq<int>)

  /** A planned export: the silent loop, its overlays in the order they are applied,
      the repeat count (`loop * bars`) and the file written. */
  datatype Mix = Mix(loopMs: int, overlays: seq<Overlay>, bars: int, outputPath: string)

  predicate ValidSources(srcs: seq<TrackSource>)
  {
    forall i :: 0 <= i < |srcs| ==> srcs[i].Use? ==> |srcs[i].grid| == STEPS
  }

  /** The overlays of columns `0 .. n-1` of one track, as the inner loop applies them. */
  function StepOverlays(track: int, sample: string, grid: seq<int>, bpm: int, n: nat): (ov: seq<Overlay>)
    requires n <= |grid| && bpm > 0
    ensures |ov| <= n
  {
    if n == 0 then []
    else
      StepOverlays(track, sample, grid, bpm, n - 1)
      + (if grid[n - 1] != 0 then [Overlay(track, n - 1, sample, OffsetMs(n - 1, bpm))] else [])
  }

  function TrackOverlays(track: int, src: TrackSource, bpm: int): seq<Overlay>
    requires bpm > 0 && (src.Use? ==> |src.grid| == STEPS)
  {
    match src
    case Skip => []
    case Use(sample, grid) => StepOverlays(track, sample, grid, bpm, STEPS)
  }

  /** All overlays of an export, track by track in list order. */
  function PlanOverlays(srcs: seq<TrackSource>, bpm: int): seq<Overlay>
    requires ValidSources(srcs) && bpm > 0
  {
    if srcs == [] then []
    else
      var n := |srcs| - 1;
      PlanOverlays(srcs[..n], bpm) + TrackOverlays(n, srcs[n], bpm)
  }

  /** The plan over one more track appends that track's overlays. */
  lemma PlanSnoc(srcs: seq<TrackSource>, k: nat, bpm: int)
    requires ValidSources(srcs) && bpm > 0 && k < |srcs|
    ensures ValidSources(srcs[..k]) && ValidSources(srcs[..k + 1])
    ensures PlanOverlays(srcs[..k + 1], bpm) == PlanOverlays(srcs[..k], bpm) + TrackOverlays(k, srcs[k], bpm)
  {
    assert srcs[..k + 1][..k] == srcs[..k];
  }

  /** track, then column: the order overlays are applied in. */
  predicate Before(a: Overlay, b: Overlay)
  {
    a.track < b.track || (a.track == b.track && a.col < b.col)
  }

  predicate StrictlyOrdered(ov: seq<Overlay>)
  {
    forall i, j :: 0 <= i < j < |ov| ==> Before(ov[i], ov[j])
  }

  /** The overlay the exporter applies for set step `col` of track `track`. */
  predicate IsStepOverlay(o: Overlay, srcs: seq<TrackSource>, bpm: int)
    requires ValidSources(srcs) && bpm > 0
  {
    && 0 <= o.track < |srcs| && srcs[o.track].Use?
    && 0 <= o.col < STEPS && srcs[o.track].grid[o.col] != 0
    && o.sample == srcs[o.track].sample && o.offsetMs == OffsetMs(o.col, bpm)
  }

  /** Each overlay of a track's inner loop is the overlay of a set step of that track. */
  lemma {:induction false} StepOverlaysEach(track: int, sample: string, grid: seq<int>, bpm: int, n: nat)
    requires n <= |grid| && bpm > 0
    ensures forall k :: 0 <= k < |StepOverlays(track, sample, grid, bpm, n)| ==>
      var o := StepOverlays(track, sample, grid, bpm, n)[k];
      o.track == track && 0 <= o.col < n && grid[o.col] != 0 && o.sample == sample && o.offsetMs == OffsetMs(o.col, bpm)
  {
    if n > 0 {
      StepOverlaysEach(track, sample, grid, bpm, n - 1);
      var prev := StepOverlays(track, sample, grid, bpm, n - 1);
      var ov := StepOverlays(track, sample, grid, bpm, n);
      forall k | 0 <= k < |ov|
        ensures ov[k].track == track && 0 <= ov[k].col < n && grid[ov[k].col] != 0
        ensures ov[k].sample == sample && ov[k].offsetMs == OffsetMs(ov[k].col, bpm)
      {
        if k < |prev| { assert ov[k] == prev[k]; }
      }
    }
  }

  /** The columns of a track's inner loop strictly ascend. */
  lemma {:induction false} StepOverlaysAscending(track: int, sample: string, grid: seq<int>, bpm: int, n: nat)
    requires n <= |grid| && bpm > 0
    ensures forall i, j :: 0 <= i < j < |StepOverlays(track, sample, grid, bpm, n)| ==>
      StepOverlays(track, sample, grid, bpm, n)[i].col < StepOverlays(track, sample, grid, bpm, n)[j].col
  {
    if n > 0 {
      StepOverlaysAscending(track, sample, grid, bpm, n - 1);
      StepOverlaysEach(track, sample, grid, bpm, n - 1);
      var prev := StepOverlays(track, sample, grid, bpm, n - 1);
      var ov := StepOverlays(track, sample, grid, bpm, n);
      forall i, j | 0 <= i < j < |ov| ensures ov[i].col < ov[j].col {
        assert ov[i] == prev[i];
        if j < |prev| { assert ov[j] == prev[j]; } else { assert ov[j].col == n - 1; }
      }
    }
  }

  /** Each overlay of a track's inner loop is the overlay of a set step of that track,
      and the columns strictly ascend. */
  lemma StepOverlaysSound(track: int, sample: string, grid: seq<int>, bpm: int, n: nat)
    requires n <= |grid| && bpm > 0
    ensures forall k :: 0 <= k < |StepOverlays(track, sample, grid, bpm, n)| ==>
      var o := StepOverlays(track, sample, grid, bpm, n)[k];
      o.track == track && 0 <= o.col < n && grid[o.col] != 0 && o.sample == sample && o.offsetMs == OffsetMs(o.col, bpm)
    ensures forall i, j :: 0 <= i < j < |StepOverlays(track, sample, grid, bpm, n)| ==>
      StepOverlays(track, sample, grid, bpm, n)[i].col < StepOverlays(track, sample, grid, bpm, n)[j].col
  {
    StepOverlaysEach(track, sample, grid, bpm, n);
    StepOverlaysAscending(track, sample, grid, bpm, n);
  }

  /** Every set step among the first `n` columns has its overlay in the inner loop. */
  lemma {:induction false} StepOverlaysComplete(track: int, sample: string, grid: seq<int>, bpm: int, n: nat)
    requires n <= |grid| && bpm > 0
    ensures forall c :: 0 <= c < n && grid[c] != 0 ==>
      Overlay(track, c, sample, OffsetMs(c, bpm)) in StepOverlays(track, sample, grid, bpm, n)
  {
    if n > 0 {
      StepOverlaysComplete(track, sample, grid, bpm, n - 1);
    }
  }

  /** Every overlay of a plan is the overlay of a set step of a used track, and the
      plan is strictly ordered by track and column. */
  lemma {:induction false} PlanSound(srcs: seq<TrackSource>, bpm: int)
    requires ValidSources(srcs) && bpm > 0
    ensures forall k :: 0 <= k < |PlanOverlays(srcs, bpm)| ==> IsStepOverlay(PlanOverlays(srcs, bpm)[k], srcs, bpm)
    ensures StrictlyOrdered(PlanOverlays(srcs, bpm))
  {
    if srcs != [] {
      var n := |srcs| - 1;
      var front := srcs[..n];
      PlanSound(front, bpm);
      var prev := PlanOverlays(front, bpm);
      var last := TrackOverlays(n, srcs[n], bpm);
      if srcs[n].Use? {
        StepOverlaysSound(n, srcs[n].sample, srcs[n].grid, bpm, STEPS);
      }
      var ov := PlanOverlays(srcs, bpm);
      assert ov == prev + last;
      forall k | 0 <= k < |ov| ensures IsStepOverlay(ov[k], srcs, bpm) {
        if k < |prev| {
          assert ov[k] == prev[k];
          assert IsStepOverlay(prev[k], front, bpm);
          assert srcs[prev[k].track] == front[prev[k].track];
        } else {
          assert ov[k] == last[k - |prev|];
        }
      }
      forall i, j | 0 <= i < j < |ov| ensures Before(ov[i], ov[j]) {
        if j < |prev| {
          assert ov[i] == prev[i] && ov[j] == prev[j];
        } else if i < |prev| {
          assert ov[i] == prev[i] && IsStepOverlay(prev[i], front, bpm);
          assert ov[j] == last[j - |prev|];
        } else {
          assert ov[i] == last[i - |prev|] && ov[j] == last[j - |prev|];
        }
      }
    }
  }

  /** Overlay `k` of `ov` is the one for step `col` of track `track`. */
  predicate OverlaysStep(ov: seq<Overlay>, k: int, track: int, col: int)
  {
    0 <= k < |ov| && ov[k].track == track && ov[k].col == col
  }

  /** Every set step of a used track is overlaid by the plan. */
  lemma {:induction false} PlanComplete(srcs: seq<TrackSource>, bpm: int, track: int, col: int)
    requires ValidSources(srcs) && bpm > 0
    requires 0 <= track < |srcs| && srcs[track].Use? && 0 <= col < STEPS && srcs[track].grid[col] != 0
    ensures exists k :: OverlaysStep(PlanOverlays(srcs, bpm), k, track, col)
  {
    var n := |srcs| - 1;
    var front := srcs[..n];
    var prev := PlanOverlays(front, bpm);
    var ov := PlanOverlays(srcs, bpm);
    assert ov == prev + TrackOverlays(n, srcs[n], bpm);
    if track < n {
      assert front[track] == srcs[track];
      PlanComplete(front, bpm, track, col);
      var k :| OverlaysStep(prev, k, track, col);
      assert ov[k] == prev[k];
      assert OverlaysStep(ov, k, track, col);
    } else {
      LastTrackComplete(prev, n, srcs[n], bpm, col);
    }
  }

  /** A set step of the last track is overlaid after the earlier tracks' overlays. */
  lemma LastTrackComplete(prev: seq<Overlay>, track: int, src: TrackSource, bpm: int, col: int)
    requires bpm > 0 && src.Use? && |src.grid| == STEPS && 0 <= col < STEPS && src.grid[col] != 0
    ensures exists k :: OverlaysStep(prev + TrackOverlays(track, src, bpm), k, track, col)
  {
    StepOverlaysComplete(track, src.sample, src.grid, bpm, STEPS);
    var last := TrackOverlays(track, src, bpm);
    var k :| 0 <= k < |last| && last[k] == Overlay(track, col, src.sample, OffsetMs(col, bpm));
    var ov := prev + last;
    assert ov[|prev| + k] == last[k];
    assert OverlaysStep(ov, |prev| + k, track, col);
  }

  /** Each set step of a used track is overlaid exactly once, at `OffsetMs(col, bpm)`,
      with that track's sample; nothing else is overlaid. */
  lemma PlanExactlyOnce(srcs: seq<TrackSource>, bpm: int, track: int, col: int)
    requires ValidSources(srcs) && bpm > 0
    requires 0 <= track < |srcs| && srcs[track].Use? && 0 <= col < STEPS && srcs[track].grid[col] != 0
    ensures exists k :: (
      && OverlaysStep(PlanOverlays(srcs, bpm), k, track, col)
      && PlanOverlays(srcs, bpm)[k] == Overlay(track, col, srcs[track].sample, OffsetMs(col, bpm))
      && forall k' :: OverlaysStep(PlanOverlays(srcs, bpm), k', track, col) ==> k' == k)
  {
    var ov := PlanOverlays(srcs, bpm);
    PlanSound(srcs, bpm);
    PlanComplete(srcs, bpm, track, col);
    var k :| OverlaysStep(ov, k, track, col);
    assert IsStepOverlay(ov[k], srcs, bpm);
    forall k' | OverlaysStep(ov, k', track, col) ensures k' == k {
    }
  }

  /** No overlay is placed past the end of the loop. */
  lemma PlanWithinLoop(srcs: seq<TrackSource>, bpm: int)
    requires ValidSources(srcs) && bpm > 0
    ensures forall k :: 0 <= k < |PlanOverlays(srcs, bpm)| ==>
      0 <= PlanOverlays(srcs, bpm)[k].offsetMs <= LoopMs(bpm)
  {
    PlanSound(srcs, bpm);
    var ov := PlanOverlays(srcs, bpm);
    forall k | 0 <= k < |ov| ensures 0 <= ov[k].offsetMs <= LoopMs(bpm) {
      assert IsStepOverlay(ov[k], srcs, bpm);
      OffsetWithinLoop(bpm, ov[k].col);
    }
  }

  /** The overlays moved `dt` milliseconds later. */
  function Shifted(ov: seq<Overlay>, dt: int): (r: seq<Overlay>)
    ensures |r| == |ov|
  {
    seq(|ov|, j requires 0 <= j < |ov| => ov[j].(offsetMs := ov[j].offsetMs + dt))
  }

  /** What `loop * bars` plays: the loop's overlays once per bar, bar `b` starting at
      `b * loopMs` (an empty render when `bars <= 0`). */
  function Repeated(ov: seq<Overlay>, loopMs: int, bars: int): (r: seq<Overlay>)
    decreases bars
  {
    if bars <= 0 then [] else Repeated(ov, loopMs, bars - 1) + Shifted(ov, (bars - 1) * loopMs)
  }

  /** Length in milliseconds of the rendered file. */
  function RenderedLengthMs(m: Mix): int
  {
    if m.bars <= 0 then 0 else m.loopMs * m.bars
  }

  /** Index arithmetic of bar `b`, slot `j` in a render of `bars` bars of `n` overlays. */
  lemma BarIndex(b: int, j: int, n: int, bars: int)
    requires 0 <= b < bars && 0 <= j < n
    ensures 0 <= b * n + j < bars * n
    ensures b < bars - 1 ==> b * n + j < (bars - 1) * n
    ensures b == bars - 1 ==> b * n + j - (bars - 1) * n == j
  {
    MulMono(0, b, n);
    MulMono(b + 1, bars, n);
    assert (b + 1) * n == b * n + n;
    if b < bars - 1 {
      MulMono(b + 1, bars - 1, n);
    }
  }

  /** `bars` copies of the loop. */
  lemma {:induction false} RepeatedLength(ov: seq<Overlay>, loopMs: int, bars: int)
    requires bars >= 0
    ensures |Repeated(ov, loopMs, bars)| == bars * |ov|
    decreases bars
  {
    if bars > 0 {
      RepeatedLength(ov, loopMs, bars - 1);
      assert (bars - 1) * |ov| + |ov| == bars * |ov|;
    }
  }

  /** Overlay `j` of bar `b` of the repeated loop is overlay `j` of the loop moved
      `b * loopMs` later. */
  lemma {:induction false} RepeatedAt(ov: seq<Overlay>, loopMs: int, bars: int, b: int, j: int)
    requires 0 <= b < bars && 0 <= j < |ov|
    ensures b * |ov| + j < |Repeated(ov, loopMs, bars)|
    ensures Repeated(ov, loopMs, bars)[b * |ov| + j] == ov[j].(offsetMs := ov[j].offsetMs + b * loopMs)
    decreases bars
  {
    RepeatedLength(ov, loopMs, bars - 1);
    BarIndex(b, j, |ov|, bars);
    var prev := Repeated(ov, loopMs, bars - 1);
    var last := Shifted(ov, (bars - 1) * loopMs);
    assert Repeated(ov, loopMs, bars) == prev + last;
    if b < bars - 1 {
      RepeatedAt(ov, loopMs, bars - 1, b, j);
    } else {
      assert (prev + last)[b * |ov| + j] == last[j];
    }
  }

  /** The worked export: one track at 120 BPM with steps 0 and 4 set renders a 16000 ms
      loop with overlays at 0 and 1000 ms; four bars make a 64000 ms file. */
  lemma Export120Example(sample: string, path: string)
    ensures
      var grid := seq(STEPS, c => if c == 0 || c == 4 then 1 else 0);
      var m := Mix(LoopMs(120), PlanOverlays([Use(sample, grid)], 120), 4, path);
      && m.loopMs == 16000
      && m.overlays == [Overlay(0, 0, sample, 0), Overlay(0, 4, sample, 1000)]
      && RenderedLengthMs(m) == 64000
  {
    var grid := seq(STEPS, c => if c == 0 || c == 4 then 1 else 0);
    Tempo120();
    var srcs := [Use(sample, grid)];
    assert srcs[..0] == [];
    assert PlanOverlays(srcs, 120) == StepOverlays(0, sample, grid, 120, STEPS);
    assert StepOverlays(0, sample, grid, 120, 1) == [Overlay(0, 0, sample, 0)];
    StepOverlaysTail(0, sample, grid, 120, 1, 4);
    assert StepOverlays(0, sample, grid, 120, 5) == StepOverlays(0, sample, grid, 120, 4) + [Overlay(0, 4, sample, 1000)];
    assert StepOverlays(0, sample, grid, 120, 5) == [Overlay(0, 0, sample, 0), Overlay(0, 4, sample, 1000)];
    StepOverlaysTail(0, sample, grid, 120, 5, STEPS);
  }

  /** Columns that are not set add no overlay. */
  lemma {:induction false} StepOverlaysTail(track: int, sample: string, grid: seq<int>, bpm: int, m: nat, n: nat)
    requires m <= n <= |grid| && bpm > 0
    requires forall c :: m <= c < n ==> grid[c] == 0
    ensures StepOverlays(track, sample, grid, bpm, n) == StepOverlays(track, sample, grid, bpm, m)
    decreases n
  {
    if n > m {
      StepOverlaysTail(track, sample, grid, bpm, m, n - 1);
    }
  }
}
