/** Piano-roll notes: closed step intervals on a row, as both piano-roll canvases keep
    them in `notes_list` (try3/piano_roll.py, main/piano_roll1.py).

    A note in the source is a dict `{'row', 'start', 'end'}` compared by identity
    (`note is exclude_note`) and mutated through the reference held in `drag_note`.
    Here a note is a value carrying an `id` that stands for that identity: two list
    entries are the same dict exactly when their ids agree. */
module Notes {
  import opened Wrappers

  datatype Note = Note(id: nat, row: int, start: int, end: int)

  /** `note['row'] == row and note['start'] <= col <= note['end']`. */
  predicate Covers(n: Note, row: int, col: int)
  {
    n.row == row && n.start <= col <= n.end
  }

  /** `note['row'] == row and not (end < note['start'] or start > note['end'])`. */
  predicate Intersects(n: Note, row: int, s: int, e: int)
  {
    n.row == row && !(e < n.start || s > n.end)
  }

  /** The note is not the excluded one (`note is exclude_note`; `None` excludes nothing). */
  predicate Counted(n: Note, exclude: Option<nat>)
  {
    exclude != Some(n.id)
  }

  /** `has_overlap(row, start, end, exclude_note)`. */
  function HasOverlap(notes: seq<Note>, row: int, s: int, e: int, exclude: Option<nat>): (b: bool)
    ensures b <==> exists k :: 0 <= k < |notes| && Counted(notes[k], exclude) && Intersects(notes[k], row, s, e)
  {
    if notes == [] then false
    else if !Counted(notes[0], exclude) then HasOverlap(notes[1..], row, s, e, exclude)
    else if Intersects(notes[0], row, s, e) then true
    else
      var b := HasOverlap(notes[1..], row, s, e, exclude);
      assert forall k :: 1 <= k < |notes| ==> notes[k] == notes[1..][k - 1];
      b
  }

  /** `find_note_at(row, col)`: the first note covering the cell, if any. */
  function FindNoteAt(notes: seq<Note>, row: int, col: int): (r: Option<Note>)
    ensures r.None? <==> forall k :: 0 <= k < |notes| ==> !Covers(notes[k], row, col)
    ensures r.Some? ==> exists k :: 0 <= k < |notes| && notes[k] == r.value && Covers(r.value, row, col) &&
                          forall j :: 0 <= j < k ==> !Covers(notes[j], row, col)
  {
    if notes == [] then None
    else if Covers(notes[0], row, col) then Some(notes[0])
    else
      var r := FindNoteAt(notes[1..], row, col);
      assert forall k :: 1 <= k < |notes| ==> notes[k] == notes[1..][k - 1];
      assert r.Some? ==> exists k :: 1 <= k < |notes| && notes[k] == r.value && Covers(r.value, row, col) &&
                          forall j :: 0 <= j < k ==> !Covers(notes[j], row, col) by {
        if r.Some? {
          var k :| 0 <= k < |notes[1..]| && notes[1..][k] == r.value && Covers(r.value, row, col) &&
                   forall j :: 0 <= j < k ==> !Covers(notes[1..][j], row, col);
          assert notes[k + 1] == r.value;
          forall j | 0 <= j < k + 1 ensures !Covers(notes[j], row, col) {
            if j > 0 { assert notes[j] == notes[1..][j - 1]; }
          }
        }
      }
      r
  }

  /** `is_row_playing(row)` of the 88-key roll: some note lies on the row. */
  function IsRowPlaying(notes: seq<Note>, row: int): (b: bool)
    ensures b <==> exists k :: 0 <= k < |notes| && notes[k].row == row
  {
    if notes == [] then false
    else if notes[0].row == row then true
    else
      var b := IsRowPlaying(notes[1..], row);
      assert forall k :: 1 <= k < |notes| ==> notes[k] == notes[1..][k - 1];
      b
  }

  /** The right-click filter: `[note for note in notes_list if not covers(note)]`. */
  function RemoveCovering(notes: seq<Note>, row: int, col: int): (r: seq<Note>)
    ensures |r| <= |notes|
    ensures forall n :: n in r <==> n in notes && !Covers(n, row, col)
  {
    if notes == [] then []
    else
      var rest := RemoveCovering(notes[1..], row, col);
      assert forall n :: n in notes <==> n == notes[0] || n in notes[1..];
      (if Covers(notes[0], row, col) then [] else [notes[0]]) + rest
  }

  /** The filter commutes with concatenation: survivors keep their relative order. */
  lemma {:induction false} RemoveCoveringAppend(a: seq<Note>, b: seq<Note>, row: int, col: int)
    ensures RemoveCovering(a + b, row, col) == RemoveCovering(a, row, col) + RemoveCovering(b, row, col)
  {
    if a != [] {
      assert (a + b)[1..] == a[1..] + b;
      RemoveCoveringAppend(a[1..], b, row, col);
    } else {
      assert a + b == b;
    }
  }

  /** A list none of whose notes covers the cell is left as it is. */
  lemma {:induction false} RemoveCoveringNone(notes: seq<Note>, row: int, col: int)
    requires forall k :: 0 <= k < |notes| ==> !Covers(notes[k], row, col)
    ensures RemoveCovering(notes, row, col) == notes
  {
    if notes != [] {
      RemoveCoveringNone(notes[1..], row, col);
      assert [notes[0]] + notes[1..] == notes;
    }
  }

  /** The dict mutation `drag_note[...] = v` seen through `notes_list`: every entry that
      is the dragged dict takes its new value, the others stay. */
  function Put(notes: seq<Note>, n: Note): (r: seq<Note>)
    ensures |r| == |notes|
    ensures forall k :: 0 <= k < |notes| ==> r[k] == (if notes[k].id == n.id then n else notes[k])
  {
    seq(|notes|, k requires 0 <= k < |notes| => if notes[k].id == n.id then n else notes[k])
  }

  predicate InRange(n: Note, rows: int, steps: int)
  {
    0 <= n.row < rows && 0 <= n.start <= n.end < steps
  }

  /** Two notes on different rows, or on one row with intervals that do not meet. */
  predicate Disjoint(a: Note, b: Note)
  {
    !Intersects(b, a.row, a.start, a.end)
  }

  /** The editor invariant: every note inside the roll with start <= end, the notes
      distinct dicts, and no two notes on one row overlapping. */
  predicate WellFormed(notes: seq<Note>, rows: int, steps: int)
  {
    && (forall k :: 0 <= k < |notes| ==> InRange(notes[k], rows, steps))
    && (forall i, j :: 0 <= i < |notes| && 0 <= j < |notes| && i != j ==>
          notes[i].id != notes[j].id && Disjoint(notes[i], notes[j]))
  }

  predicate IdsBelow(notes: seq<Note>, bound: nat)
  {
    forall k :: 0 <= k < |notes| ==> notes[k].id < bound
  }

  /** No other note of the list meets note `n` on its row. */
  predicate Free(notes: seq<Note>, n: Note)
  {
    !HasOverlap(notes, n.row, n.start, n.end, Some(n.id))
  }

  /** Every entry that is the dict `n` holds its current value. */
  predicate Current(notes: seq<Note>, n: Note)
  {
    forall k :: 0 <= k < |notes| && notes[k].id == n.id ==> notes[k] == n
  }

  /** A one-cell range meets a note exactly when the note covers that cell, so the
      overlap check made after `find_note_at` found nothing always passes. */
  lemma CellOverlapIsCover(notes: seq<Note>, row: int, col: int)
    ensures HasOverlap(notes, row, col, col, None) <==> FindNoteAt(notes, row, col).Some?
  {
    var none: Option<nat> := None;
    assert forall k :: 0 <= k < |notes| ==> Counted(notes[k], none);
    assert forall k :: 0 <= k < |notes| ==> (Intersects(notes[k], row, col, col) <==> Covers(notes[k], row, col));
  }

  /** Excluding a note can only remove overlaps. */
  lemma OverlapExcluding(notes: seq<Note>, row: int, s: int, e: int, id: nat)
    ensures HasOverlap(notes, row, s, e, Some(id)) ==> HasOverlap(notes, row, s, e, None)
  {
    if HasOverlap(notes, row, s, e, Some(id)) {
      var k :| 0 <= k < |notes| && Counted(notes[k], Some(id)) && Intersects(notes[k], row, s, e);
      assert Counted(notes[k], None);
    }
  }

  /** A range free of other notes has every sub-range free. */
  lemma FreeSubrange(notes: seq<Note>, row: int, s: int, e: int, s': int, e': int, exclude: Option<nat>)
    requires !HasOverlap(notes, row, s, e, exclude) && s <= s' && e' <= e
    ensures !HasOverlap(notes, row, s', e', exclude)
  {
    forall k | 0 <= k < |notes| && Counted(notes[k], exclude) ensures !Intersects(notes[k], row, s', e') {
      assert !Intersects(notes[k], row, s, e);
    }
  }

  /** Two adjacent free ranges make a free range. */
  lemma FreeUnion(notes: seq<Note>, row: int, a: int, b: int, c: int, exclude: Option<nat>)
    requires a <= b + 1 <= c + 1
    requires forall k :: 0 <= k < |notes| ==> notes[k].start <= notes[k].end
    requires !HasOverlap(notes, row, a, b, exclude) && !HasOverlap(notes, row, b + 1, c, exclude)
    ensures !HasOverlap(notes, row, a, c, exclude)
  {
    forall k | 0 <= k < |notes| && Counted(notes[k], exclude) ensures !Intersects(notes[k], row, a, c) {
      assert !Intersects(notes[k], row, a, b) && !Intersects(notes[k], row, b + 1, c);
    }
  }

  /** A note of a well-formed list is free in it. */
  lemma MemberIsFree(notes: seq<Note>, rows: int, steps: int, k: int)
    requires WellFormed(notes, rows, steps) && 0 <= k < |notes|
    ensures Free(notes, notes[k]) && Current(notes, notes[k])
  {
    var n := notes[k];
    forall j | 0 <= j < |notes| && Counted(notes[j], Some(n.id)) ensures !Intersects(notes[j], n.row, n.start, n.end) {
      assert j != k && Disjoint(n, notes[j]);
    }
  }

  /** Appending a fresh note that is in range and meets no note keeps the list well formed;
      the new note is then free and current in it. */
  lemma AppendWellFormed(notes: seq<Note>, rows: int, steps: int, bound: nat, n: Note)
    requires WellFormed(notes, rows, steps) && IdsBelow(notes, bound) && n.id >= bound
    requires InRange(n, rows, steps) && !HasOverlap(notes, n.row, n.start, n.end, None)
    ensures WellFormed(notes + [n], rows, steps) && IdsBelow(notes + [n], n.id + 1)
    ensures Free(notes + [n], n) && Current(notes + [n], n)
  {
    var r := notes + [n];
    forall i, j | 0 <= i < |r| && 0 <= j < |r| && i != j ensures r[i].id != r[j].id && Disjoint(r[i], r[j]) {
      if i == |notes| {
        assert Counted(r[j], None) && !Intersects(r[j], n.row, n.start, n.end);
      } else if j == |notes| {
        assert Counted(r[i], None) && !Intersects(r[i], n.row, n.start, n.end);
      }
    }
    assert IdsBelow(r, n.id + 1);
    forall k | 0 <= k < |r| && Counted(r[k], Some(n.id)) ensures !Intersects(r[k], n.row, n.start, n.end) {
      assert k < |notes| && Counted(notes[k], None);
    }
  }

  /** Giving the dragged note a new span that is in range and free keeps the list well
      formed, and the note stays free and current. */
  lemma PutWellFormed(notes: seq<Note>, rows: int, steps: int, n: Note)
    requires WellFormed(notes, rows, steps) && InRange(n, rows, steps) && Free(notes, n)
    ensures WellFormed(Put(notes, n), rows, steps)
    ensures Free(Put(notes, n), n) && Current(Put(notes, n), n)
    ensures forall b: nat :: IdsBelow(notes, b) ==> IdsBelow(Put(notes, n), b)
  {
    var r := Put(notes, n);
    forall i, j | 0 <= i < |r| && 0 <= j < |r| && i != j ensures r[i].id != r[j].id && Disjoint(r[i], r[j]) {
      if notes[i].id == n.id {
        assert notes[j].id != n.id && r[j] == notes[j];
        assert Counted(notes[j], Some(n.id)) && !Intersects(notes[j], n.row, n.start, n.end);
      } else if notes[j].id == n.id {
        assert r[i] == notes[i];
        assert Counted(notes[i], Some(n.id)) && !Intersects(notes[i], n.row, n.start, n.end);
      }
    }
    forall k | 0 <= k < |r| && Counted(r[k], Some(n.id)) ensures !Intersects(r[k], n.row, n.start, n.end) {
      assert r[k] == notes[k];
    }
  }

  lemma ConsWellFormed(notes: seq<Note>, rows: int, steps: int)
    requires notes != []
    ensures WellFormed(notes, rows, steps) <==>
      && WellFormed(notes[1..], rows, steps) && InRange(notes[0], rows, steps)
      && forall m :: m in notes[1..] ==> m.id != notes[0].id && Disjoint(notes[0], m) && Disjoint(m, notes[0])
  {
    var t := notes[1..];
    assert forall k :: 1 <= k < |notes| ==> notes[k] == t[k - 1];
    if WellFormed(t, rows, steps) && InRange(notes[0], rows, steps)
       && forall m :: m in t ==> m.id != notes[0].id && Disjoint(notes[0], m) && Disjoint(m, notes[0]) {
      forall i, j | 0 <= i < |notes| && 0 <= j < |notes| && i != j
        ensures notes[i].id != notes[j].id && Disjoint(notes[i], notes[j])
      {
        if i == 0 {
          assert notes[j] in t;
        } else if j == 0 {
          assert notes[i] in t;
        } else {
          assert notes[i] == t[i - 1] && notes[j] == t[j - 1];
        }
      }
    }
    if WellFormed(notes, rows, steps) {
      forall m | m in t ensures m.id != notes[0].id && Disjoint(notes[0], m) && Disjoint(m, notes[0]) {
        var k :| 0 <= k < |t| && t[k] == m;
        assert notes[k + 1] == m;
      }
      forall i, j | 0 <= i < |t| && 0 <= j < |t| && i != j ensures t[i].id != t[j].id && Disjoint(t[i], t[j]) {
        assert t[i] == notes[i + 1] && t[j] == notes[j + 1];
      }
    }
  }

  /** Right-click deletion keeps the list well formed. */
  lemma {:induction false} RemoveCoveringWellFormed(notes: seq<Note>, rows: int, steps: int, row: int, col: int)
    requires WellFormed(notes, rows, steps)
    ensures WellFormed(RemoveCovering(notes, row, col), rows, steps)
  {
    if notes != [] {
      var t := notes[1..];
      ConsWellFormed(notes, rows, steps);
      RemoveCoveringWellFormed(t, rows, steps, row, col);
      var rest := RemoveCovering(t, row, col);
      if !Covers(notes[0], row, col) {
        var r := [notes[0]] + rest;
        assert r[1..] == rest;
        ConsWellFormed(r, rows, steps);
      }
    }
  }

  /** Removing notes keeps every note free that was free. */
  lemma RemoveCoveringFree(notes: seq<Note>, row: int, col: int, n: Note)
    requires Free(notes, n)
    ensures Free(RemoveCovering(notes, row, col), n) && (Current(notes, n) ==> Current(RemoveCovering(notes, row, col), n))
  {
    var r := RemoveCovering(notes, row, col);
    forall k | 0 <= k < |r| && Counted(r[k], Some(n.id)) ensures !Intersects(r[k], n.row, n.start, n.end) {
      assert r[k] in notes;
    }
    if Current(notes, n) {
      forall k | 0 <= k < |r| && r[k].id == n.id ensures r[k] == n {
        assert r[k] in notes;
      }
    }
  }

  lemma RemoveCoveringIds(notes: seq<Note>, row: int, col: int, bound: nat)
    requires IdsBelow(notes, bound)
    ensures IdsBelow(RemoveCovering(notes, row, col), bound)
  {
    var r := RemoveCovering(notes, row, col);
    forall k | 0 <= k < |r| ensures r[k].id < bound {
      assert r[k] in notes;
    }
  }
}
