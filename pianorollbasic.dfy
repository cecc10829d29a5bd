/** The 24-row piano-roll editor of the main prototype (main/piano_roll1.py): no
    scrolling, no grabbed edge; a drag compares the cursor with the note's edges and
    with the column first pressed (`drag_start`). Drawing is left out. */
module PianoRollBasic {
  import opened Wrappers
  import opened MinMax
  import opened Notes
  import Timing

  datatype Cell = Cell(row: int, col: int)

  /** The dragged dict after one motion event with the clamped cursor at `colNow`, the
      press at `originalCol`, on row `row`. Four branches, each guarded by an overlap
      check on the cells it would add or keep:
        left of the note: extend the start if `[colNow, start-1]` is free;
        right of the note: extend the end if `[end+1, colNow]` is free;
        inside, left of the press: pull the start in if `[colNow, end-1]` is free;
        inside, right of the press: pull the end in if `[start+1, colNow]` is free. */
  function DragStep(notes: seq<Note>, n: Note, row: int, originalCol: int, colNow: int): (m: Note)
    ensures m.id == n.id && m.row == n.row
    ensures m.end == n.end || m.start == n.start
    ensures m.start != n.start ==> m.start == colNow
    ensures m.end != n.end ==> m.end == colNow
  {
    if colNow < n.start then
      if !HasOverlap(notes, row, colNow, n.start - 1, Some(n.id)) then n.(start := colNow) else n
    else if colNow > n.end then
      if !HasOverlap(notes, row, n.end + 1, colNow, Some(n.id)) then n.(end := colNow) else n
    else if colNow < originalCol then
      if !HasOverlap(notes, row, colNow, n.end - 1, Some(n.id)) then n.(start := colNow) else n
    else if colNow > originalCol then
      if !HasOverlap(notes, row, n.start + 1, colNow, Some(n.id)) then n.(end := colNow) else n
    else n
  }

  /** No branch breaks the drag invariant: the note stays inside the roll, keeps the
      pressed column between its edges, and meets no other note of the list. */
  lemma DragStepKeepsNote(notes: seq<Note>, rows: int, steps: int, n: Note, originalCol: int, colNow: int)
    requires WellFormed(notes, rows, steps) && InRange(n, rows, steps) && Free(notes, n)
    requires n.start <= originalCol <= n.end && 0 <= colNow < steps
    ensures var m := DragStep(notes, n, n.row, originalCol, colNow);
      InRange(m, rows, steps) && m.start <= originalCol <= m.end && Free(notes, m)
  {
    var m := DragStep(notes, n, n.row, originalCol, colNow);
    var ex := Some(n.id);
    forall k | 0 <= k < |notes| ensures notes[k].start <= notes[k].end {
      assert InRange(notes[k], rows, steps);
    }
    if colNow < n.start {
      if m != n {
        FreeUnion(notes, n.row, colNow, n.start - 1, n.end, ex);
      }
    } else if colNow > n.end {
      if m != n {
        FreeUnion(notes, n.row, n.start, n.end, colNow, ex);
      }
    } else if m != n {
      FreeSubrange(notes, n.row, n.start, n.end, m.start, m.end, ex);
    }
  }

  /** Pulling an edge in never meets the overlap check: while the cursor is inside the
      note, the drag always moves the edge on the cursor's side of the press to it. */
  lemma ShrinkNeverRejected(notes: seq<Note>, n: Note, originalCol: int, colNow: int)
    requires Free(notes, n) && n.start <= colNow <= n.end
    ensures colNow < originalCol ==> DragStep(notes, n, n.row, originalCol, colNow) == n.(start := colNow)
    ensures colNow > originalCol ==> DragStep(notes, n, n.row, originalCol, colNow) == n.(end := colNow)
    ensures colNow == originalCol ==> DragStep(notes, n, n.row, originalCol, colNow) == n
  {
    if colNow < originalCol {
      FreeSubrange(notes, n.row, n.start, n.end, colNow, n.end - 1, Some(n.id));
    } else if colNow > originalCol {
      FreeSubrange(notes, n.row, n.start, n.end, n.start + 1, colNow, Some(n.id));
    }
  }

  /** Growing an edge happens exactly when the added cells are free. */
  lemma ExtendIffFree(notes: seq<Note>, n: Note, originalCol: int, colNow: int)
    ensures colNow < n.start ==>
      (DragStep(notes, n, n.row, originalCol, colNow).start == colNow <==> !HasOverlap(notes, n.row, colNow, n.start - 1, Some(n.id)))
    ensures n.start <= n.end < colNow ==>
      (DragStep(notes, n, n.row, originalCol, colNow).end == colNow <==> !HasOverlap(notes, n.row, n.end + 1, colNow, Some(n.id)))
  {
  }

  class PianoRollCanvas {
    const steps: int
    /** `notes`: the number of rows, the bottom one C3. */
    const rows: int
    const cellWidth: int
    const cellHeight: int
    /** `sidebar_width + beat_offset * cell_width`. */
    const sidebarWidth: int
    var notesList: seq<Note>
    var nextId: nat
    var dragStart: Option<Cell>
    var dragNote: Option<Note>

    /** The editor invariant; during a drag the press column lies inside the dragged note. */
    ghost predicate Valid()
      reads this
    {
      && cellWidth > 0 && cellHeight > 0
      && WellFormed(notesList, rows, steps) && IdsBelow(notesList, nextId)
      && (dragNote.Some? <==> dragStart.Some?)
      && (dragNote.Some? ==>
            && InRange(dragNote.value, rows, steps) && dragNote.value.id < nextId
            && Free(notesList, dragNote.value) && Current(notesList, dragNote.value)
            && dragStart.value.row == dragNote.value.row
            && dragNote.value.start <= dragStart.value.col <= dragNote.value.end)
    }

    constructor (steps: int, rows: int, cellWidth: int, cellHeight: int, sidebarWidth: int, beatOffset: int)
      requires cellWidth > 0 && cellHeight > 0
      ensures Valid()
      ensures this.steps == steps && this.rows == rows && this.cellWidth == cellWidth && this.cellHeight == cellHeight
      ensures this.sidebarWidth == sidebarWidth + beatOffset * cellWidth
      ensures notesList == [] && dragStart.None? && dragNote.None?
    {
      this.steps := steps;
      this.rows := rows;
      this.cellWidth := cellWidth;
      this.cellHeight := cellHeight;
      this.sidebarWidth := sidebarWidth + beatOffset * cellWidth;
      notesList := [];
      nextId := 0;
      dragStart := None;
      dragNote := None;
    }

    /** The cell under pixel (x, y) when it is inside the roll. */
    function CellAt(x: int, y: int): (c: Option<Cell>)
      requires cellWidth > 0 && cellHeight > 0
      reads this
      ensures c.Some? ==> 0 <= c.value.row < rows && 0 <= c.value.col < steps
      ensures c.Some? ==> sidebarWidth + c.value.col * cellWidth <= x < sidebarWidth + c.value.col * cellWidth + cellWidth
      ensures c.Some? ==> c.value.row * cellHeight <= y < c.value.row * cellHeight + cellHeight
    {
      var col := (x - sidebarWidth) / cellWidth;
      var row := y / cellHeight;
      if 0 <= row < rows && 0 <= col < steps then
        Timing.DivBracket(x - sidebarWidth, cellWidth);
        Timing.DivBracket(y, cellHeight);
        Some(Cell(row, col))
      else None
    }

    /** `handle_left_click`: grab the note covering an in-range cell, or append a
        one-cell note there and grab it. */
    method LeftClick(x: int, y: int)
      requires Valid()
      modifies this
      ensures Valid()
      ensures old(CellAt(x, y)).None? ==>
        notesList == old(notesList) && nextId == old(nextId) && dragStart == old(dragStart) && dragNote == old(dragNote)
      ensures old(CellAt(x, y)).Some? && old(FindNoteAt(notesList, CellAt(x, y).value.row, CellAt(x, y).value.col)).Some? ==>
        var c := old(CellAt(x, y)).value;
        && notesList == old(notesList) && nextId == old(nextId)
        && dragNote == old(FindNoteAt(notesList, c.row, c.col)) && dragStart == Some(c)
      ensures old(CellAt(x, y)).Some? && old(FindNoteAt(notesList, CellAt(x, y).value.row, CellAt(x, y).value.col)).None? ==>
        var c := old(CellAt(x, y)).value;
        var n := Note(old(nextId), c.row, c.col, c.col);
        && notesList == old(notesList) + [n] && nextId == old(nextId) + 1
        && dragNote == Some(n) && dragStart == Some(c)
    {
      var cell := CellAt(x, y);
      if cell.Some? {
        var row, col := cell.value.row, cell.value.col;
        var existing := FindNoteAt(notesList, row, col);
        if existing.Some? {
          var k :| 0 <= k < |notesList| && notesList[k] == existing.value && Covers(existing.value, row, col) &&
                   forall j :: 0 <= j < k ==> !Covers(notesList[j], row, col);
          MemberIsFree(notesList, rows, steps, k);
          dragNote := existing;
          dragStart := Some(Cell(row, col));
        } else {
          CellOverlapIsCover(notesList, row, col);
          if !HasOverlap(notesList, row, col, col, None) {
            var n := Note(nextId, row, col, col);
            AppendWellFormed(notesList, rows, steps, nextId, n);
            notesList := notesList + [n];
            nextId := nextId + 1;
            dragNote := Some(n);
            dragStart := Some(Cell(row, col));
          }
        }
      }
    }

    /** `handle_drag_motion`: one motion event with the cursor clamped to the grid. */
    method DragMotion(x: int)
      requires Valid()
      modifies this
      ensures Valid()
      ensures nextId == old(nextId) && dragStart == old(dragStart)
      ensures old(dragNote).None? ==> notesList == old(notesList) && dragNote.None?
      ensures old(dragNote).Some? ==>
        var m := DragStep(old(notesList), old(dragNote).value, old(dragStart).value.row, old(dragStart).value.col,
                          Max(0, Min((x - sidebarWidth) / cellWidth, steps - 1)));
        dragNote == Some(m) && notesList == Put(old(notesList), m)
    {
      if dragNote.Some? && dragStart.Some? {
        var n := dragNote.value;
        var row, originalCol := dragStart.value.row, dragStart.value.col;
        var colNow := (x - sidebarWidth) / cellWidth;
        colNow := Max(0, Min(colNow, steps - 1));
        var m := n;
        if colNow < n.start {
          if !HasOverlap(notesList, row, colNow, n.start - 1, Some(n.id)) {
            m := n.(start := colNow);
          }
        } else if colNow > n.end {
          if !HasOverlap(notesList, row, n.end + 1, colNow, Some(n.id)) {
            m := n.(end := colNow);
          }
        } else if colNow < originalCol {
          if !HasOverlap(notesList, row, colNow, n.end - 1, Some(n.id)) {
            m := n.(start := colNow);
          }
        } else if colNow > originalCol {
          if !HasOverlap(notesList, row, n.start + 1, colNow, Some(n.id)) {
            m := n.(end := colNow);
          }
        }
        assert m == DragStep(notesList, n, row, originalCol, colNow);
        DragStepKeepsNote(notesList, rows, steps, n, originalCol, colNow);
        PutWellFormed(notesList, rows, steps, m);
        dragNote := Some(m);
        notesList := Put(notesList, m);
      }
    }

    /** `handle_drag_release`. */
    method DragRelease()
      requires Valid()
      modifies this
      ensures Valid()
      ensures dragStart.None? && dragNote.None?
      ensures notesList == old(notesList) && nextId == old(nextId)
    {
      dragStart := None;
      dragNote := None;
    }

    /** `handle_right_click`: delete every note of the row covering an in-range cell. */
    method RightClick(x: int, y: int)
      requires Valid()
      modifies this
      ensures Valid()
      ensures old(CellAt(x, y)).None? ==> notesList == old(notesList)
      ensures old(CellAt(x, y)).Some? ==>
        notesList == RemoveCovering(old(notesList), old(CellAt(x, y)).value.row, old(CellAt(x, y)).value.col)
      ensures nextId == old(nextId) && dragStart == old(dragStart) && dragNote == old(dragNote)
    {
      var cell := CellAt(x, y);
      if cell.Some? {
        var row, col := cell.value.row, cell.value.col;
        RemoveCoveringWellFormed(notesList, rows, steps, row, col);
        RemoveCoveringIds(notesList, row, col, nextId);
        if dragNote.Some? {
          RemoveCoveringFree(notesList, row, col, dragNote.value);
        }
        notesList := RemoveCovering(notesList, row, col);
      }
    }
  }
}
