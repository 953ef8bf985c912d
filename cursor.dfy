// The write cursor `Board::Position` of board.hpp. In C++ it is a value
// struct (post-increment copies it) holding a row, a column and a pointer to
// its board, used only to read the board's width; here it is a datatype and
// the width is passed explicitly. The built-in equality of the datatype
// compares row and column only, which is what `operator==` and `operator!=`
// do (board.hpp:63-69).

module Cursor {

  datatype Position = Position(row: nat, col: nat)

  /** `begin()`: the first cell. */
  function Begin(): Position {
    Position(0, 0)
  }

  /** `end()`: one row past the last, at column 0; never written. */
  function End(height: nat): Position {
    Position(height, 0)
  }

  /** The row-major index of a position on a board `width` cells wide. */
  function Index(p: Position, width: nat): nat {
    p.row * width + p.col
  }

  /** Prefix `operator++`: the next column in the same row, or column 0 of
      the next row once the last column is passed. On a board at least one
      cell wide it moves one step forward in row-major order. */
  function Next(p: Position, width: nat): (q: Position)
    ensures p.col < width ==> q.col < width && Index(q, width) == Index(p, width) + 1
    ensures width > 0 && p.col < width ==> (q.row == p.row) == (p.col + 1 < width)
  {
    if p.col < width - 1 then Position(p.row, p.col + 1) else Position(p.row + 1, 0)
  }

  /** Postfix `operator++`: the cursor as it was, and the cursor after `++`. */
  function PostIncrement(p: Position, width: nat): (r: (Position, Position))
    ensures r.0 == p
    ensures p.col < width ==> r.1.col < width && Index(r.1, width) == Index(p, width) + 1
  {
    (p, Next(p, width))
  }

  /** `n` applications of `++`. */
  function Advance(p: Position, n: nat, width: nat): Position {
    if n == 0 then p else Next(Advance(p, n - 1, width), width)
  }

  /** On a board `width` wide, a position in an earlier row has a smaller
      index. */
  lemma EarlierRowSmallerIndex(p: Position, q: Position, width: nat)
    requires p.col < width && p.row < q.row
    ensures Index(p, width) < Index(q, width)
  {
    calc {
      Index(p, width);
    <  p.row * width + width;
    == (p.row + 1) * width;
    <= { MulMonotone(p.row + 1, q.row, width); }
      q.row * width;
    <= Index(q, width);
    }
  }

  /** Two in-row positions with the same index are the same position. */
  lemma IndexInjective(p: Position, q: Position, width: nat)
    requires p.col < width && q.col < width
    requires Index(p, width) == Index(q, width)
    ensures p == q
  {
    if p.row < q.row {
      EarlierRowSmallerIndex(p, q, width);
    } else if q.row < p.row {
      EarlierRowSmallerIndex(q, p, width);
    }
  }

  lemma MulMonotone(a: nat, b: nat, w: nat)
    requires a <= b
    ensures a * w <= b * w
  {
  }

  /** Starting at `begin()`, `n` increments reach the cell whose row-major
      index is `n`. */
  lemma {:induction false} AdvanceFromBegin(n: nat, width: nat)
    requires width > 0
    ensures Advance(Begin(), n, width).col < width
    ensures Index(Advance(Begin(), n, width), width) == n
  {
    if n > 0 {
      AdvanceFromBegin(n - 1, width);
    }
  }

  /** Exactly `height * width` increments lead from `begin()` to `end()`;
      before that, the `n`-th position is the in-grid cell with row-major
      index `n`, so every cell is visited once, in row-major order. */
  lemma BeginToEnd(height: nat, width: nat)
    requires width > 0
    ensures Advance(Begin(), height * width, width) == End(height)
    ensures forall n :: 0 <= n < height * width ==>
      var p := Advance(Begin(), n, width);
      p.row < height && p.col < width && Index(p, width) == n
    ensures forall n :: 0 <= n < height * width ==> Advance(Begin(), n, width) != End(height)
  {
    AdvanceFromBegin(height * width, width);
    IndexInjective(Advance(Begin(), height * width, width), End(height), width);
    forall n | 0 <= n < height * width
      ensures var p := Advance(Begin(), n, width);
        p.row < height && p.col < width && Index(p, width) == n
    {
      AdvanceFromBegin(n, width);
      var p := Advance(Begin(), n, width);
      if p.row >= height {
        MulMonotone(height, p.row, width);
      }
    }
  }

  /** Within the first `height * width` increments from `begin()`, the
      cursor equals `end()` exactly after the last one: the loop
      `for (iter = begin(); iter != end(); ++iter)` runs once per cell. */
  lemma AtEndExactly(height: nat, width: nat, n: nat)
    requires width > 0 && n <= height * width
    ensures Advance(Begin(), n, width) == End(height) <==> n == height * width
  {
    BeginToEnd(height, width);
  }

  /** The cell `(row, col)` of the grid is reached after `row * width + col`
      increments. */
  lemma AdvanceReaches(row: nat, col: nat, width: nat)
    requires col < width
    ensures Advance(Begin(), row * width + col, width) == Position(row, col)
  {
    AdvanceFromBegin(row * width + col, width);
    IndexInjective(Advance(Begin(), row * width + col, width), Position(row, col), width);
  }
}
