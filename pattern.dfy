/** Step grids: a track's row of 0/1 cells (try3 and main TrackRow.grid) and the
    tracks-by-steps grid of the mini sequencer (project/gui.py). */
module Pattern {

  predicate IsStepRow(g: seq<int>) { forall k :: 0 <= k < |g| ==> g[k] == 0 || g[k] == 1 }

  /** A step button's background when unset: white and light gray alternate every four
      steps. */
  function BaseColor(col: int): string
  {
    if (col / 4) % 2 == 0 then "white" else "lightgray"
  }

  /** `grid[col] = 1 - grid[col]`. */
  function Toggle(g: seq<int>, col: int): (t: seq<int>)
    requires 0 <= col < |g|
    ensures |t| == |g|
    ensures IsStepRow(g) ==> IsStepRow(t) && (t[col] == 1 <==> g[col] == 0)
    ensures forall k :: 0 <= k < |g| && k != col ==> t[k] == g[k]
  {
    g[col := 1 - g[col]]
  }

  /** Two clicks on the same cell restore the row. */
  lemma ToggleTwice(g: seq<int>, col: int)
    requires 0 <= col < |g|
    ensures Toggle(Toggle(g, col), col) == g
  {
  }

  function ZeroRow(n: nat): (g: seq<int>)
    ensures |g| == n && IsStepRow(g) && forall k :: 0 <= k < n ==> g[k] == 0
  {
    seq(n, _ => 0)
  }

  predicate IsStepGrid(g: seq<seq<int>>, rows: nat, cols: nat)
  {
    |g| == rows && forall r :: 0 <= r < rows ==> |g[r]| == cols && IsStepRow(g[r])
  }

  /** `[[0 for _ in range(cols)] for _ in range(rows)]`. */
  function ZeroGrid(rows: nat, cols: nat): (g: seq<seq<int>>)
    ensures IsStepGrid(g, rows, cols)
    ensures forall r, c :: 0 <= r < rows && 0 <= c < cols ==> g[r][c] == 0
  {
    seq(rows, _ => ZeroRow(cols))
  }

  /** `grid[row][col] = 1 - grid[row][col]` on the 2-D grid. */
  function ToggleCell(g: seq<seq<int>>, row: int, col: int): (t: seq<seq<int>>)
    requires 0 <= row < |g| && 0 <= col < |g[row]|
    ensures |t| == |g| && t[row] == Toggle(g[row], col)
    ensures forall r :: 0 <= r < |g| && r != row ==> t[r] == g[r]
  {
    g[row := Toggle(g[row], col)]
  }

  /** Toggling a cell keeps the grid a 0/1 grid and changes that cell only. */
  lemma ToggleCellKeepsGrid(g: seq<seq<int>>, rows: nat, cols: nat, row: int, col: int)
    requires IsStepGrid(g, rows, cols) && 0 <= row < rows && 0 <= col < cols
    ensures IsStepGrid(ToggleCell(g, row, col), rows, cols)
    ensures ToggleCell(g, row, col)[row][col] == 1 - g[row][col]
    ensures forall r, c :: 0 <= r < rows && 0 <= c < cols && (r, c) != (row, col) ==>
              ToggleCell(g, row, col)[r][c] == g[r][c]
  {
  }

  lemma ToggleCellTwice(g: seq<seq<int>>, row: int, col: int)
    requires 0 <= row < |g| && 0 <= col < |g[row]|
    ensures ToggleCell(ToggleCell(g, row, col), row, col) == g
  {
    ToggleTwice(g[row], col);
  }
}
