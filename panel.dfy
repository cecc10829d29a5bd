/** The floating piano-roll window of try3/draggable_panel.py: a frame placed at
    (x, y) with a size inside its master, moved by dragging its header and resized by
    dragging its right edge ("e"), bottom edge ("s") or corner ("se"). The geometry Tk
    reports (`winfo_x`, `winfo_width`, ...) is the geometry last placed; the master's
    size is a parameter. */
module Panel {
  import opened Wrappers
  import opened MinMax

  /** `_last_place_info`: where `restore_panel` puts the panel back. */
  datatype PlaceInfo = PlaceInfo(x: int, y: int, width: int, height: int)

  /** One axis of `do_move`: the dragged position, clamped to `[0, limit]` when there
      is a master of that extent left over (`limit` is the master's extent minus the
      panel's). */
  function MoveTarget(pos: int, delta: int, limit: Option<int>): (r: int)
    ensures limit.None? ==> r == pos + delta
    ensures limit.Some? ==> 0 <= r
    ensures limit.Some? && 0 <= limit.value ==> r <= limit.value
    ensures limit.Some? && 0 <= pos + delta <= limit.value ==> r == pos + delta
  {
    var p := pos + delta;
    if limit.Some? then Max(0, Min(p, limit.value)) else p
  }

  /** Clamping lands on the nearest in-range position: below the range it gives 0,
      above it the far edge; a panel wider than its master snaps to 0. */
  lemma MoveTargetEdges(pos: int, delta: int, limit: int)
    ensures pos + delta < 0 ==> MoveTarget(pos, delta, Some(limit)) == 0
    ensures 0 <= limit < pos + delta ==> MoveTarget(pos, delta, Some(limit)) == limit
    ensures limit < 0 ==> MoveTarget(pos, delta, Some(limit)) == 0
  {
  }

  /** Clamping twice changes nothing: a second drag by zero keeps the place. */
  lemma MoveTargetSettles(pos: int, delta: int, limit: int)
    requires 0 <= limit
    ensures MoveTarget(MoveTarget(pos, delta, Some(limit)), 0, Some(limit)) == MoveTarget(pos, delta, Some(limit))
  {
  }

  /** The new size of `do_resize`: the width follows the drag for "e" and "se" but not
      below `minWidth`, the height likewise for "s" and "se"; a coordinate the
      direction does not move, and every coordinate for any other direction, keeps
      the size recorded by `start_resize`. */
  function ResizeTarget(dir: string, origWidth: int, origHeight: int, dx: int, dy: int,
                        minWidth: int, minHeight: int): (r: (int, int))
    ensures dir == "e" || dir == "se" ==>
      r.0 >= minWidth && r.0 >= origWidth + dx && (r.0 == minWidth || r.0 == origWidth + dx)
    ensures !(dir == "e" || dir == "se") ==> r.0 == origWidth
    ensures dir == "s" || dir == "se" ==>
      r.1 >= minHeight && r.1 >= origHeight + dy && (r.1 == minHeight || r.1 == origHeight + dy)
    ensures !(dir == "s" || dir == "se") ==> r.1 == origHeight
  {
    var w := origWidth;
    var h := origHeight;
    if dir == "e" then (Max(minWidth, origWidth + dx), h)
    else if dir == "s" then (w, Max(minHeight, origHeight + dy))
    else if dir == "se" then (Max(minWidth, origWidth + dx), Max(minHeight, origHeight + dy))
    else (w, h)
  }

  /** The corner is the two edges at once: resizing by "se" gives the width of "e" and
      the height of "s". */
  lemma CornerIsBothEdges(origWidth: int, origHeight: int, dx: int, dy: int, minWidth: int, minHeight: int)
    ensures ResizeTarget("se", origWidth, origHeight, dx, dy, minWidth, minHeight) ==
      (ResizeTarget("e", origWidth, origHeight, dx, dy, minWidth, minHeight).0,
       ResizeTarget("s", origWidth, origHeight, dx, dy, minWidth, minHeight).1)
  {
  }

  /** A press on a handle followed by a motion event at the same point leaves a size
      that already respects the minimum unchanged. */
  lemma ResizeByZero(dir: string, origWidth: int, origHeight: int, minWidth: int, minHeight: int)
    requires minWidth <= origWidth && minHeight <= origHeight
    ensures ResizeTarget(dir, origWidth, origHeight, 0, 0, minWidth, minHeight) == (origWidth, origHeight)
  {
  }

  class DraggablePanel {
    var x: int
    var y: int
    var width: int
    var height: int
    /** False between `hide_panel` and the next `place`. */
    var visible: bool
    const minWidth: int
    const minHeight: int
    var dragStartX: int
    var dragStartY: int
    var resizeDir: Option<string>
    var resizeStartX: int
    var resizeStartY: int
    var origWidth: int
    var origHeight: int
    /** `_orig_x` / `_orig_y` exist only after the first `start_resize`; here they
        start at the initial place. Nothing reads them. */
    var origX: int
    var origY: int
    var lastPlace: PlaceInfo

    function Geometry(): PlaceInfo
      reads this`x, this`y, this`width, this`height
    {
      PlaceInfo(x, y, width, height)
    }

    /** `__init__`: placed at the given geometry, which is also the geometry to
        restore; no drag or resize in progress. */
    constructor(x0: int, y0: int, width0: int, height0: int, minWidth0: int, minHeight0: int)
      ensures Geometry() == PlaceInfo(x0, y0, width0, height0) && visible
      ensures lastPlace == Geometry()
      ensures minWidth == minWidth0 && minHeight == minHeight0
      ensures dragStartX == 0 && dragStartY == 0
      ensures resizeDir == None && resizeStartX == 0 && resizeStartY == 0
      ensures origWidth == width0 && origHeight == height0
    {
      lastPlace := PlaceInfo(x0, y0, width0, height0);
      x, y, width, height := x0, y0, width0, height0;
      visible := true;
      minWidth, minHeight := minWidth0, minHeight0;
      dragStartX, dragStartY := 0, 0;
      resizeDir := None;
      resizeStartX, resizeStartY := 0, 0;
      origWidth, origHeight := width0, height0;
      origX, origY := x0, y0;
    }

    /** `_on_configure`: record the current geometry for `restore_panel`. */
    method OnConfigure()
      modifies this`lastPlace
      ensures lastPlace == Geometry()
    {
      lastPlace := PlaceInfo(x, y, width, height);
    }

    /** `start_move`: remember the press point; nothing is placed. */
    method StartMove(eventX: int, eventY: int)
      modifies this`dragStartX, this`dragStartY
      ensures dragStartX == eventX && dragStartY == eventY
    {
      dragStartX := eventX;
      dragStartY := eventY;
    }

    /** `do_move`: shift by the drag since the press and, inside a master of the given
        size, keep the whole panel within it. Placing shows a hidden panel. */
    method DoMove(eventX: int, eventY: int, master: Option<(int, int)>)
      modifies this`x, this`y, this`visible
      ensures x == MoveTarget(old(x), eventX - dragStartX, if master.Some? then Some(master.value.0 - width) else None)
      ensures y == MoveTarget(old(y), eventY - dragStartY, if master.Some? then Some(master.value.1 - height) else None)
      ensures master.Some? && width <= master.value.0 ==> 0 <= x <= master.value.0 - width
      ensures master.Some? && height <= master.value.1 ==> 0 <= y <= master.value.1 - height
      ensures visible
    {
      var dx := eventX - dragStartX;
      var dy := eventY - dragStartY;
      var nx := x + dx;
      var ny := y + dy;
      if master.Some? {
        nx := Max(0, Min(nx, master.value.0 - width));
        ny := Max(0, Min(ny, master.value.1 - height));
      }
      x, y := nx, ny;
      visible := true;
    }

    /** `start_resize`: remember the direction, the press point and the geometry at
        the press; nothing is placed. */
    method StartResize(dir: string, rootX: int, rootY: int)
      modifies this`resizeDir, this`resizeStartX, this`resizeStartY, this`origWidth, this`origHeight, this`origX, this`origY
      ensures resizeDir == Some(dir) && resizeStartX == rootX && resizeStartY == rootY
      ensures origWidth == width && origHeight == height && origX == x && origY == y
    {
      resizeDir := Some(dir);
      resizeStartX, resizeStartY := rootX, rootY;
      origWidth, origHeight := width, height;
      origX, origY := x, y;
    }

    /** `do_resize`: the size from the geometry at the press and the drag since, for
        the direction the handle passes (not the one `start_resize` stored). The
        position is kept. */
    method DoResize(rootX: int, rootY: int, dir: string)
      modifies this`width, this`height, this`visible
      ensures (width, height) == ResizeTarget(dir, origWidth, origHeight, rootX - resizeStartX, rootY - resizeStartY, minWidth, minHeight)
      ensures (dir == "e" || dir == "se") ==> width >= minWidth
      ensures (dir == "s" || dir == "se") ==> height >= minHeight
      ensures visible
    {
      var dx := rootX - resizeStartX;
      var dy := rootY - resizeStartY;
      var newWidth := origWidth;
      var newHeight := origHeight;
      if dir == "e" {
        newWidth := Max(minWidth, origWidth + dx);
      } else if dir == "s" {
        newHeight := Max(minHeight, origHeight + dy);
      } else if dir == "se" {
        newWidth := Max(minWidth, origWidth + dx);
        newHeight := Max(minHeight, origHeight + dy);
      }
      width, height := newWidth, newHeight;
      visible := true;
    }

    /** `hide_panel`: unplace the panel; its geometry is kept for the restore. */
    method Hide()
      modifies this`visible
      ensures !visible
    {
      visible := false;
    }

    /** `restore_panel`: place the panel at the geometry last recorded. */
    method Restore()
      modifies this`x, this`y, this`width, this`height, this`visible
      ensures Geometry() == lastPlace && visible
    {
      x, y, width, height := lastPlace.x, lastPlace.y, lastPlace.width, lastPlace.height;
      visible := true;
    }
  }

  /** A panel recorded by `_on_configure`, hidden and restored comes back where it was. */
  method HideRestoreRoundTrip(p: DraggablePanel)
    modifies p
    ensures p.Geometry() == old(p.Geometry()) && p.visible
  {
    p.OnConfigure();
    p.Hide();
    p.Restore();
  }
}
