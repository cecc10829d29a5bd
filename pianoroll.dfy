/** The 88-key piano-roll editor of the try3 prototype (try3/piano_roll.py): a canvas
    holding `notes_list`, a vertical scroll position `top_note`, and the drag state
    of the note being edited (the dict `drag_note`, the press cell `drag_start` and the
    grabbed edge `drag_edge`). Drawing is left out. The canvas height `winfo_height()`
    is the field `height`: the requested height until a `<Configure>` event gives the
    real one. */
module PianoRoll {
  import opened Wrappers
  import opened MinMax
  import opened Notes
  import Timing

  /** `notes_total`: A0 (MIDI 21) to C8 (MIDI 108). */
  const NOTES_TOTAL := 88

  /** Half the width, in pixels, of the band around a note edge that grabs it. */
  const EDGE_GRAB := 6

  datatype Edge = StartEdge | EndEdge

  datatype Cell = Cell(row: int, col: int)

  function Abs(v: int): int { if v < 0 then -v else v }

  /** `max(0, min(col, steps - 1))`: the drag cursor kept on the grid. */
  function ClampCol(col: int, steps: int): (c: int)
    requires steps >= 1
    ensures 0 <= c < steps
    ensures 0 <= col < steps ==> c == col
  {
    Max(0, Min(col, steps - 1))
  }

  /** The edge a press at `clickX` grabs on a note drawn from `x1` to `x2`: the start
      edge within 6 px of it, else the end edge within 6 px of it, else the nearer half
      (the midpoint test `click_x > (x1 + x2) / 2`, exact on integers when doubled). */
  function ChooseEdge(clickX: int, x1: int, x2: int): Edge
  {
    if Abs(clickX - x1) < EDGE_GRAB then StartEdge
    else if Abs(clickX - x2) < EDGE_GRAB then EndEdge
    else if 2 * clickX > x1 + x2 then EndEdge
    else StartEdge
  }

  /** On a note at least 12 px wide (every note once cells are 12 px or wider) the two
      grab bands agree with the midpoint test: a press on the right half grabs the end. */
  lemma ChooseEdgeByHalf(clickX: int, x1: int, x2: int)
    requires x2 - x1 >= 2 * EDGE_GRAB
    ensures ChooseEdge(clickX, x1, x2) == EndEdge <==> 2 * clickX > x1 + x2
  {
  }

  /** The note the dragged dict becomes when the grabbed edge follows the clamped cursor
      `colNow`, before the overlap check: the start edge moves to `min(colNow, end)`,
      the end edge to `max(colNow, start)`. */
  function DragTarget(n: Note, edge: Edge, colNow: int): (m: Note)
    ensures m.id == n.id && m.row == n.row
    ensures edge == StartEdge ==>
      m.end == n.end && m.start <= m.end && (m.start == colNow || (m.start == n.end && colNow > n.end))
    ensures edge == EndEdge ==>
      m.start == n.start && n.start <= m.end && (m.end == colNow || (m.end == n.start && colNow < n.start))
  {
    match edge
    case StartEdge => n.(start := Min(colNow, n.end))
    case EndEdge => n.(end := Max(colNow, n.start))
  }

  /** A drag keeps the dragged note inside the roll with start <= end. */
  lemma DragTargetInRange(n: Note, edge: Edge, colNow: int, steps: int)
    requires InRange(n, NOTES_TOTAL, steps) && 0 <= colNow < steps
    ensures InRange(DragTarget(n, edge, colNow), NOTES_TOTAL, steps)
  {
  }

  class PianoRollCanvas {
    const steps: int
    const cellWidth: int
    const cellHeight: int
    /** `sidebar_width + beat_offset * cell_width`: where column 0 starts, in pixels. */
    const sidebarWidth: int
    /** `winfo_height()`: the requested height at first, then the height the last
        `<Configure>` event reported. */
    var height: int
    /** Index of the row shown at the top (0 = C8). */
    var topNote: int
    var notesList: seq<Note>
    /** The id the next appended note receives. */
    var nextId: nat
    var dragStart: Option<Cell>
    var dragNote: Option<Note>
    var dragEdge: Option<Edge>

    /** The editor invariant: the notes are well formed and distinct, and while a drag is
        under way the dragged dict is inside the roll, meets no other note, every entry
        of it in the list shows its current value, and the press was on its row. */
    ghost predicate Valid()
      reads this
    {
      && cellWidth > 0 && cellHeight > 0
      && 0 <= topNote < NOTES_TOTAL
      && WellFormed(notesList, NOTES_TOTAL, steps) && IdsBelow(notesList, nextId)
      && (dragNote.Some? <==> dragStart.Some?) && (dragNote.Some? <==> dragEdge.Some?)
      && (dragNote.Some? ==>
            && InRange(dragNote.value, NOTES_TOTAL, steps) && dragNote.value.id < nextId
            && Free(notesList, dragNote.value) && Current(notesList, dragNote.value)
            && dragStart.value.row == dragNote.value.row)
    }

    /** A new canvas: no notes, scrolled to the top (C8), nothing dragged. Its height is
        the requested `24 * cell_height`; Tk reports 1 until the canvas is mapped, which
        the model does not take. */
    constructor (steps: int, cellWidth: int, cellHeight: int, sidebarWidth: int, beatOffset: int)
      requires cellWidth > 0 && cellHeight > 0
      ensures Valid()
      ensures this.steps == steps && this.cellWidth == cellWidth && this.cellHeight == cellHeight
      ensures this.sidebarWidth == sidebarWidth + beatOffset * cellWidth
      ensures height == 24 * cellHeight && topNote == 0
      ensures notesList == [] && dragStart.None? && dragNote.None? && dragEdge.None?
    {
      this.steps := steps;
      this.cellWidth := cellWidth;
      this.cellHeight := cellHeight;
      this.sidebarWidth := sidebarWidth + beatOffset * cellWidth;
      height := 24 * cellHeight;
      topNote := 0;
      notesList := [];
      nextId := 0;
      dragStart := None;
      dragNote := None;
      dragEdge := None;
    }

    /** `notes_visible`: how many whole rows fit in the canvas, at least one. */
    function NotesVisible(): (v: int)
      requires cellHeight > 0
      reads this
      ensures v >= 1
      ensures height >= cellHeight ==> v * cellHeight <= height < v * cellHeight + cellHeight
      ensures height < cellHeight ==> v == 1
    {
      Max(1, height / cellHeight)
    }

    /** The largest `top_note` a scroll may reach. */
    function MaxTop(): (t: int)
      requires cellHeight > 0
      reads this
      ensures 0 <= t < NOTES_TOTAL
      ensures t == 0 || t + NotesVisible() == NOTES_TOTAL
    {
      Max(0, NOTES_TOTAL - NotesVisible())
    }

    /** The grid cell under pixel (x, y) when it is a visible, existing row and column:
        the column is `(x - sidebar_width) // cell_width`, the row `top_note + y // cell_height`. */
    function CellAt(x: int, y: int): (c: Option<Cell>)
      requires cellWidth > 0 && cellHeight > 0
      reads this
      ensures c.Some? ==> 0 <= c.value.row < NOTES_TOTAL && 0 <= c.value.col < steps
      ensures c.Some? ==> sidebarWidth + c.value.col * cellWidth <= x < sidebarWidth + c.value.col * cellWidth + cellWidth
      ensures c.Some? ==> 0 <= (c.value.row - topNote) * cellHeight <= y < (c.value.row - topNote) * cellHeight + cellHeight
      ensures c.Some? ==> c.value.row - topNote < NotesVisible()
    {
      var col := (x - sidebarWidth) / cellWidth;
      var visRow := y / cellHeight;
      var absRow := topNote + visRow;
      if 0 <= visRow < NotesVisible() && 0 <= col < steps && 0 <= absRow < NOTES_TOTAL then
        Timing.DivBracket(x - sidebarWidth, cellWidth);
        Timing.DivBracket(y, cellHeight);
        Some(Cell(absRow, col))
      else None
    }

    /** The x pixel where column `col` starts. */
    function ColumnX(col: int): int
      reads this
    {
      sidebarWidth + col * cellWidth
    }

    /** `scroll_vertical(delta)`: move the view by `delta` rows, clamped to the roll. */
    method ScrollVertical(delta: int)
      requires Valid()
      modifies this
      ensures Valid()
      ensures 0 <= topNote <= MaxTop()
      ensures topNote == (if old(topNote) + delta < 0 then 0
                          else if old(topNote) + delta > MaxTop() then MaxTop()
                          else old(topNote) + delta)
      ensures notesList == old(notesList) && nextId == old(nextId) && height == old(height)
      ensures dragStart == old(dragStart) && dragNote == old(dragNote) && dragEdge == old(dragEdge)
    {
      var maxTop := MaxTop();
      var newTop := topNote + delta;
      if newTop < 0 {
        newTop := 0;
      }
      if newTop > maxTop {
        newTop := maxTop;
      }
      if newTop != topNote {
        topNote := newTop;
      }
    }

    /** A `<Configure>` event: the canvas now reports height `h`. */
    method Resize(h: int)
      requires Valid()
      modifies this
      ensures Valid() && height == h
      ensures topNote == old(topNote) && notesList == old(notesList) && nextId == old(nextId)
      ensures dragStart == old(dragStart) && dragNote == old(dragNote) && dragEdge == old(dragEdge)
    {
      height := h;
    }

    /** `handle_left_click`: on an in-range cell, grab the note covering it (choosing the
        edge by where the press fell), or append a one-cell note there and grab its end. */
    method LeftClick(x: int, y: int)
      requires Valid()
      modifies this`notesList, this`nextId, this`dragStart, this`dragNote, this`dragEdge
      ensures Valid()
      ensures height == old(height) && topNote == old(topNote)
      ensures old(CellAt(x, y)).None? ==>
        notesList == old(notesList) && nextId == old(nextId) &&
        dragStart == old(dragStart) && dragNote == old(dragNote) && dragEdge == old(dragEdge)
      ensures old(CellAt(x, y)).Some? && old(FindNoteAt(notesList, CellAt(x, y).value.row, CellAt(x, y).value.col)).Some? ==>
        var c := old(CellAt(x, y)).value;
        var n := old(FindNoteAt(notesList, c.row, c.col)).value;
        && notesList == old(notesList) && nextId == old(nextId)
        && dragNote == Some(n) && dragStart == Some(c)
        && dragEdge == Some(ChooseEdge(x, ColumnX(n.start), ColumnX(n.end + 1)))
      ensures old(CellAt(x, y)).Some? && old(FindNoteAt(notesList, CellAt(x, y).value.row, CellAt(x, y).value.col)).None? ==>
        var c := old(CellAt(x, y)).value;
        var n := Note(old(nextId), c.row, c.col, c.col);
        && notesList == old(notesList) + [n] && nextId == old(nextId) + 1
        && dragNote == Some(n) && dragStart == Some(c) && dragEdge == Some(EndEdge)
    {
      var cell := CellAt(x, y);
      if cell.Some? {
        var row, col := cell.value.row, cell.value.col;
        var existing := FindNoteAt(notesList, row, col);
        if existing.Some? {
          var k :| 0 <= k < |notesList| && notesList[k] == existing.value && Covers(existing.value, row, col);
          GrabNote(k, row, col, x);
        } else {
          CellOverlapIsCover(notesList, row, col);
          if !HasOverlap(notesList, row, col, col, None) {
            PlaceNote(row, col);
          }
        }
      }
    }

    /** The first branch of `handle_left_click`: start dragging note `k`, which covers
        the pressed cell. */
    method GrabNote(k: int, row: int, col: int, x: int)
      requires Valid() && 0 <= k < |notesList| && Covers(notesList[k], row, col)
      modifies this`dragStart, this`dragNote, this`dragEdge
      ensures Valid()
      ensures dragNote == Some(notesList[k]) && dragStart == Some(Cell(row, col))
      ensures dragEdge == Some(ChooseEdge(x, ColumnX(notesList[k].start), ColumnX(notesList[k].end + 1)))
    {
      var n := notesList[k];
      MemberIsFree(notesList, NOTES_TOTAL, steps, k);
      dragNote := Some(n);
      dragStart := Some(Cell(row, col));
      dragEdge := Some(ChooseEdge(x, ColumnX(n.start), ColumnX(n.end + 1)));
    }

    /** The second branch of `handle_left_click`: a one-cell note on a free cell,
        appended with the next id and dragged by its end. */
    method PlaceNote(row: int, col: int)
      requires Valid() && 0 <= row < NOTES_TOTAL && 0 <= col < steps
      requires !HasOverlap(notesList, row, col, col, None)
      modifies this`notesList, this`nextId, this`dragStart, this`dragNote, this`dragEdge
      ensures Valid()
      ensures notesList == old(notesList) + [Note(old(nextId), row, col, col)] && nextId == old(nextId) + 1
      ensures dragNote == Some(Note(old(nextId), row, col, col)) && dragStart == Some(Cell(row, col))
      ensures dragEdge == Some(EndEdge)
    {
      var n := Note(nextId, row, col, col);
      AppendWellFormed(notesList, NOTES_TOTAL, steps, nextId, n);
      notesList := notesList + [n];
      nextId := nextId + 1;
      dragNote := Some(n);
      dragStart := Some(Cell(row, col));
      dragEdge := Some(EndEdge);
    }

    /** `handle_drag_motion`: while a note is grabbed, move the grabbed edge to the
        clamped cursor column, unless the new span would meet another note of the row. */
    method DragMotion(x: int)
      requires Valid()
      modifies this
      ensures Valid()
      ensures height == old(height) && topNote == old(topNote) && nextId == old(nextId)
      ensures dragStart == old(dragStart) && dragEdge == old(dragEdge)
      ensures old(dragNote).None? ==> notesList == old(notesList) && dragNote == old(dragNote)
      ensures old(dragNote).Some? ==>
        var n := old(dragNote).value;
        var t := DragTarget(n, old(dragEdge).value, ClampCol((x - sidebarWidth) / cellWidth, steps));
        && (!HasOverlap(old(notesList), t.row, t.start, t.end, Some(t.id)) ==>
              dragNote == Some(t) && notesList == Put(old(notesList), t))
        && (HasOverlap(old(notesList), t.row, t.start, t.end, Some(t.id)) ==>
              dragNote == old(dragNote) && notesList == old(notesList))
    {
      if dragNote.Some? && dragStart.Some? && dragEdge.Some? {
        var n := dragNote.value;
        var row := dragStart.value.row;
        var colNow := ClampCol((x - sidebarWidth) / cellWidth, steps);
        var t := DragTarget(n, dragEdge.value, colNow);
        if !HasOverlap(notesList, row, t.start, t.end, Some(n.id)) {
          DragTargetInRange(n, dragEdge.value, colNow, steps);
          PutWellFormed(notesList, NOTES_TOTAL, steps, t);
          dragNote := Some(t);
          notesList := Put(notesList, t);
        }
      }
    }

    /** `handle_drag_release`: the drag ends; the notes stay as they are. */
    method DragRelease()
      requires Valid()
      modifies this
      ensures Valid()
      ensures dragStart.None? && dragNote.None? && dragEdge.None?
      ensures notesList == old(notesList) && nextId == old(nextId) && height == old(height) && topNote == old(topNote)
    {
      dragStart := None;
      dragNote := None;
      dragEdge := None;
    }

    /** `handle_right_click`: on an in-range cell, delete every note of that row covering it. */
    method RightClick(x: int, y: int)
      requires Valid()
      modifies this
      ensures Valid()
      ensures old(CellAt(x, y)).None? ==> notesList == old(notesList)
      ensures old(CellAt(x, y)).Some? ==>
        notesList == RemoveCovering(old(notesList), old(CellAt(x, y)).value.row, old(CellAt(x, y)).value.col)
      ensures nextId == old(nextId) && height == old(height) && topNote == old(topNote)
      ensures dragStart == old(dragStart) && dragNote == old(dragNote) && dragEdge == old(dragEdge)
    {
      var cell := CellAt(x, y);
      if cell.Some? {
        var row, col := cell.value.row, cell.value.col;
        RemoveCoveringWellFormed(notesList, NOTES_TOTAL, steps, row, col);
        RemoveCoveringIds(notesList, row, col, nextId);
        if dragNote.Some? {
          RemoveCoveringFree(notesList, row, col, dragNote.value);
        }
        notesList := RemoveCovering(notesList, row, col);
      }
    }
  }
}
