/** Timing: every step is an eighth note, `60000 / bpm / 2` milliseconds.

    The source computes that value in floating point and passes it through `int()`.
    The model uses the exact rational 30000 / bpm and truncates toward zero, which is
    what `int()` does; float rounding at integer boundaries is abstracted (for a tempo
    that divides 30000, such as 120, the float computation is exact). */
module Timing {

  /** Steps per pattern (STEPS in every prototype). */
  const STEPS := 64

  /** Trailing milliseconds kept after a piano-roll note's nominal length. */
  const BUFFER_MS := 1000

  lemma MulMono(a: int, b: int, c: int)
    requires a <= b && c >= 0
    ensures a * c <= b * c
  {
    assert (b - a) * c >= 0;
  }

  lemma DivBracket(a: int, b: int)
    requires b > 0
    ensures (a / b) * b <= a < (a / b) * b + b
    ensures a >= 0 ==> a / b >= 0 && (a / b) * b >= 0
  {
    assert a == (a / b) * b + a % b;
    if a >= 0 && a / b < 0 {
      MulMono(a / b, -1, b);
    }
    if a >= 0 {
      MulMono(0, a / b, b);
    }
  }

  /** The quotient is pinned down by the bracket it sits in. */
  lemma DivUnique(x: int, b: int, y: int)
    requires b > 0 && y * b <= x < y * b + b
    ensures x / b == y
  {
    var q := x / b;
    DivBracket(x, b);
    if q < y {
      MulMono(q + 1, y, b);
    } else if q > y {
      MulMono(y + 1, q, b);
    }
  }

  /** Below the bracket of x, above y. */
  lemma DivAtLeast(x: int, b: int, y: int)
    requires b > 0 && y * b <= x
    ensures y <= x / b
  {
    DivBracket(x, b);
    if x / b < y {
      MulMono(x / b + 1, y, b);
    }
  }

  lemma DivBelow(x: int, b: int, y: int)
    requires b > 0 && x < y * b
    ensures x / b < y
  {
    DivBracket(x, b);
    if x / b >= y {
      MulMono(y, x / b, b);
    }
  }

  /** Python `int()` of the exact quotient a / b: truncation toward zero. */
  function TruncDiv(a: int, b: int): (q: int)
    requires b > 0
    ensures a >= 0 ==> 0 <= q * b <= a < q * b + b
    ensures a < 0 ==> q * b - b < a <= q * b <= 0
  {
    if a >= 0 then DivBracket(a, b); a / b
    else DivBracket(-a, b); -((-a) / b)
  }

  /** `int(60000 / bpm / 2)`: the live tick delay in whole milliseconds. */
  function TickDelayMs(bpm: int): (d: int)
    requires bpm > 0
    ensures 0 <= d * bpm <= 30000 < d * bpm + bpm
  {
    TruncDiv(30000, bpm)
  }

  /** `int(col * beat_duration_ms)`: the export offset of column `col`. */
  function OffsetMs(col: int, bpm: int): (ms: int)
    requires bpm > 0
    ensures col >= 0 ==> 0 <= ms * bpm <= col * 30000 < ms * bpm + bpm
  {
    TruncDiv(col * 30000, bpm)
  }

  /** `int(beat_duration_ms * STEPS)`: the length of one exported loop. */
  function LoopMs(bpm: int): (ms: int)
    requires bpm > 0
    ensures ms == OffsetMs(STEPS, bpm)
  {
    TruncDiv(30000 * STEPS, bpm)
  }

  /** `int(steps_long * beat_duration_ms + BUFFER_MS)`: how much of a piano-roll sample
      is kept for a note `steps_long` steps long. */
  function NoteSliceMs(stepsLong: int, bpm: int): int
    requires bpm > 0
  {
    TruncDiv(stepsLong * 30000 + BUFFER_MS * bpm, bpm)
  }

  /** The worked tempo of every prototype: 120 BPM. */
  lemma Tempo120()
    ensures TickDelayMs(120) == 250 && LoopMs(120) == 16000
    ensures OffsetMs(0, 120) == 0 && OffsetMs(4, 120) == 1000
    ensures NoteSliceMs(4, 120) == 2000
  {
  }

  /** A note's slice is its nominal length (steps times the step) plus the buffer. */
  lemma NoteSliceIsLengthPlusBuffer(stepsLong: int, bpm: int)
    requires bpm > 0 && stepsLong >= 0
    ensures NoteSliceMs(stepsLong, bpm) == OffsetMs(stepsLong, bpm) + BUFFER_MS
  {
    var o := OffsetMs(stepsLong, bpm);
    DivUnique(stepsLong * 30000 + BUFFER_MS * bpm, bpm, o + BUFFER_MS);
  }

  /** When the tempo divides 30000 the integer tick delay is exact, and the live
      cursor reaches column `col` after exactly the export offset of `col`. */
  lemma DividingTempoAgrees(bpm: int, col: int)
    requires bpm > 0 && col >= 0 && 30000 % bpm == 0
    ensures OffsetMs(col, bpm) == col * TickDelayMs(bpm)
  {
    var d := TickDelayMs(bpm);
    assert d * bpm == 30000;
    assert col * 30000 == (col * d) * bpm;
    DivUnique(col * 30000, bpm, col * d);
  }

  /** `col` steps of `d` ms with remainder `r` per step sit in the bracket of `col * d`. */
  lemma DriftSplit(col: int, d: int, r: int, bpm: int)
    requires col >= 1 && 0 <= r < bpm
    ensures (col * d) * bpm <= col * (d * bpm + r) < (col * d + col) * bpm
  {
    assert col * (d * bpm + r) == (col * d) * bpm + col * r;
    MulMono(0, r, col);
    MulMono(r, bpm - 1, col);
    assert (col * d + col) * bpm == (col * d) * bpm + col * bpm;
  }

  /** In general the `col` truncated live delays fall behind the export offset of
      `col` by at most `col - 1` milliseconds, never ahead of it. */
  lemma LiveDriftBound(bpm: int, col: int)
    requires bpm > 0 && col >= 1
    ensures col * TickDelayMs(bpm) <= OffsetMs(col, bpm) <= col * TickDelayMs(bpm) + col - 1
  {
    var d := TickDelayMs(bpm);
    var x := col * 30000;
    DriftSplit(col, d, 30000 - d * bpm, bpm);
    assert col * (d * bpm + (30000 - d * bpm)) == x;
    assert OffsetMs(col, bpm) == x / bpm;
    DivAtLeast(x, bpm, col * d);
    DivBelow(x, bpm, col * d + col);
  }

  /** Later columns never get earlier offsets. */
  lemma OffsetMonotone(bpm: int, c1: int, c2: int)
    requires bpm > 0 && 0 <= c1 <= c2
    ensures OffsetMs(c1, bpm) <= OffsetMs(c2, bpm)
  {
    var o1 := OffsetMs(c1, bpm);
    MulMono(c1, c2, 30000);
    assert OffsetMs(c2, bpm) == (c2 * 30000) / bpm;
    DivAtLeast(c2 * 30000, bpm, o1);
  }

  /** Every column of the pattern is overlaid inside the exported loop; when a step
      lasts at least one millisecond (bpm <= 30000) it starts strictly before the end. */
  lemma OffsetWithinLoop(bpm: int, col: int)
    requires bpm > 0 && 0 <= col < STEPS
    ensures 0 <= OffsetMs(col, bpm) <= LoopMs(bpm)
    ensures bpm <= 30000 ==> OffsetMs(col, bpm) < LoopMs(bpm)
  {
    OffsetMonotone(bpm, col, STEPS);
    var o, l := OffsetMs(col, bpm), LoopMs(bpm);
    if bpm <= 30000 && o >= l {
      assert o * bpm <= col * 30000;
      assert STEPS * 30000 < l * bpm + bpm;
      MulMono(l, o, bpm);
      assert false;
    }
  }
}
