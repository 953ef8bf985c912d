// The grid of a board as a value: `std::vector<std::vector<bool>>` rows of
// cells, and the bounds-checked single-cell write that `add_at` and
// `kill_at` perform on it (src/board.cpp:85-93).

module Grids {

  /** The value of a board's grid: its dimensions and its rows of cells. */
  datatype Grid = Grid(height: nat, width: nat, cells: seq<seq<bool>>)

  /** Every one of the `height` rows holds exactly `width` cells. */
  predicate WellShaped(cells: seq<seq<bool>>, height: nat, width: nat) {
    |cells| == height && forall r :: 0 <= r < |cells| ==> |cells[r]| == width
  }

  /** `height` rows of `width` dead cells, as `resize` leaves them. */
  function DeadCells(height: nat, width: nat): (cells: seq<seq<bool>>)
    ensures WellShaped(cells, height, width)
    ensures forall r, c :: 0 <= r < height && 0 <= c < width ==> !cells[r][c]
  {
    seq(height, _ => seq(width, _ => false))
  }

  /** The bounds-checked write of `add_at` / `kill_at`: cell `(row, col)`
      becomes `v` when it lies on the board; every other cell keeps its
      value, and a write outside the board changes nothing. */
  function SetCell(cells: seq<seq<bool>>, height: nat, width: nat, row: nat, col: nat, v: bool): (r: seq<seq<bool>>)
    requires WellShaped(cells, height, width)
    ensures WellShaped(r, height, width)
    ensures forall i, j :: 0 <= i < height && 0 <= j < width ==>
      r[i][j] == if i == row && j == col then v else cells[i][j]
  {
    if row < height && col < width then cells[row := cells[row][col := v]] else cells
  }

  /** Two grids of the same shape with the same cells are equal. */
  lemma SameCells(a: seq<seq<bool>>, b: seq<seq<bool>>, height: nat, width: nat)
    requires WellShaped(a, height, width) && WellShaped(b, height, width)
    requires forall i, j :: 0 <= i < height && 0 <= j < width ==> a[i][j] == b[i][j]
    ensures a == b
  {
    forall i | 0 <= i < height
      ensures a[i] == b[i]
    {
      assert forall j :: 0 <= j < width ==> a[i][j] == b[i][j];
    }
  }
}
