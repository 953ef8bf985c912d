// The `Board` class of board.hpp and src/board.cpp: a fixed-size grid of
// cells kept as a vector of rows, a second grid used as the write buffer of
// `iterate`, and the born/survive rule sets. The earlier board.cpp defines
// the constructor, `iterate`, `add_at` and `kill_at` identically
// (board.cpp:10-90), so this class models both files.

module Boards {
  import opened Cursor
  import opened Grids
  import opened Encoding
  import opened Text

  /** 1 when `(r, c)` is a live cell of the board, 0 when it is dead or lies
      outside it (the neighbourhood does not wrap around: `BOARD_OVERLAP` is
      not defined). */
  function Alive(cells: seq<seq<bool>>, height: nat, width: nat, r: int, c: int): nat
    requires WellShaped(cells, height, width)
  {
    if 0 <= r < height && 0 <= c < width && cells[r][c] then 1 else 0
  }

  /** The Moore neighbourhood count: the live cells among the eight around
      `(row, col)`, cells off the board counting as dead. */
  function NeighbourCount(cells: seq<seq<bool>>, height: nat, width: nat, row: nat, col: nat): (n: nat)
    requires WellShaped(cells, height, width)
    ensures n <= 8
  {
    Alive(cells, height, width, row - 1, col - 1) + Alive(cells, height, width, row - 1, col) +
    Alive(cells, height, width, row - 1, col + 1) + Alive(cells, height, width, row, col - 1) +
    Alive(cells, height, width, row, col + 1) + Alive(cells, height, width, row + 1, col - 1) +
    Alive(cells, height, width, row + 1, col) + Alive(cells, height, width, row + 1, col + 1)
  }

  /** The next value of one cell: a live cell survives when its neighbour
      count is in `survives`, a dead one is born when it is in `born`. */
  function NextCell(cells: seq<seq<bool>>, height: nat, width: nat, born: set<int>, survives: set<int>,
                    row: nat, col: nat): bool
    requires WellShaped(cells, height, width) && row < height && col < width
  {
    var n := NeighbourCount(cells, height, width, row, col);
    if cells[row][col] then n in survives else n in born
  }

  /** One generation: every cell computed from the old grid only. */
  function Step(cells: seq<seq<bool>>, height: nat, width: nat, born: set<int>, survives: set<int>): (next: seq<seq<bool>>)
    requires WellShaped(cells, height, width)
    ensures WellShaped(next, height, width)
    ensures forall r, c :: 0 <= r < height && 0 <= c < width ==>
      next[r][c] == NextCell(cells, height, width, born, survives, r, c)
  {
    seq(height, r requires 0 <= r < height =>
      seq(width, c requires 0 <= c < width => NextCell(cells, height, width, born, survives, r, c)))
  }

  // What the neighbour-count loops of `count_neighbours` add up: the cell at
  // `(r, c)` unless it is the centre `(row, col)`.
  function Contribution(cells: seq<seq<bool>>, height: nat, width: nat, row: nat, col: nat, r: int, c: int): nat
    requires WellShaped(cells, height, width)
  {
    if r == row && c == col then 0 else Alive(cells, height, width, r, c)
  }

  /** The contributions of row `r`, columns `lo` up to `hi` (exclusive). */
  function RowSum(cells: seq<seq<bool>>, height: nat, width: nat, row: nat, col: nat, r: int, lo: int, hi: int): nat
    requires WellShaped(cells, height, width)
    decreases hi - lo
  {
    if hi <= lo then 0
    else RowSum(cells, height, width, row, col, r, lo, hi - 1) + Contribution(cells, height, width, row, col, r, hi - 1)
  }

  /** The contributions of rows `rlo` up to `rhi` (exclusive), columns `lo`
      up to `hi`. */
  function WindowSum(cells: seq<seq<bool>>, height: nat, width: nat, row: nat, col: nat,
                     rlo: int, rhi: int, lo: int, hi: int): nat
    requires WellShaped(cells, height, width)
    decreases rhi - rlo
  {
    if rhi <= rlo then 0
    else WindowSum(cells, height, width, row, col, rlo, rhi - 1, lo, hi) + RowSum(cells, height, width, row, col, rhi - 1, lo, hi)
  }

  function Max(a: int, b: int): int { if a < b then b else a }
  function Min(a: int, b: int): int { if a < b then a else b }

  /** The columns that `count_neighbours` clips away contribute nothing, so
      its row sum over the clipped range is the full three-cell row sum. */
  lemma ClippedRow(cells: seq<seq<bool>>, height: nat, width: nat, row: nat, col: nat, r: int)
    requires WellShaped(cells, height, width) && col < width
    ensures RowSum(cells, height, width, row, col, r, Max(1, col) - 1, Min(col + 2, width)) ==
      Contribution(cells, height, width, row, col, r, col - 1) +
      Contribution(cells, height, width, row, col, r, col) +
      Contribution(cells, height, width, row, col, r, col + 1)
  {
    var lo, hi := Max(1, col) - 1, Min(col + 2, width);
    assert RowSum(cells, height, width, row, col, r, lo, lo) == 0;
    if col == 0 {
      assert Contribution(cells, height, width, row, col, r, col - 1) == 0;
      if hi == col + 2 {
        assert RowSum(cells, height, width, row, col, r, lo, hi - 1) ==
          Contribution(cells, height, width, row, col, r, col);
      } else {
        assert hi == col + 1;
        assert Contribution(cells, height, width, row, col, r, col + 1) == 0;
      }
    } else {
      assert lo == col - 1;
      assert RowSum(cells, height, width, row, col, r, lo, lo + 1) ==
        Contribution(cells, height, width, row, col, r, col - 1);
      if hi == col + 2 {
        assert RowSum(cells, height, width, row, col, r, lo, hi - 1) ==
          Contribution(cells, height, width, row, col, r, col - 1) +
          Contribution(cells, height, width, row, col, r, col);
      } else {
        assert hi == col + 1;
        assert Contribution(cells, height, width, row, col, r, col + 1) == 0;
      }
    }
  }

  /** Likewise for the clipped rows: the clipped window sums to the
      neighbour count. */
  lemma ClippedWindow(cells: seq<seq<bool>>, height: nat, width: nat, row: nat, col: nat)
    requires WellShaped(cells, height, width) && row < height && col < width
    ensures WindowSum(cells, height, width, row, col, Max(1, row) - 1, Min(row + 2, height),
                      Max(1, col) - 1, Min(col + 2, width))
         == NeighbourCount(cells, height, width, row, col)
  {
    var lo, hi := Max(1, col) - 1, Min(col + 2, width);
    var rlo, rhi := Max(1, row) - 1, Min(row + 2, height);
    ClippedRow(cells, height, width, row, col, row - 1);
    ClippedRow(cells, height, width, row, col, row);
    ClippedRow(cells, height, width, row, col, row + 1);
    var above := RowSum(cells, height, width, row, col, row - 1, lo, hi);
    var middle := RowSum(cells, height, width, row, col, row, lo, hi);
    var below := RowSum(cells, height, width, row, col, row + 1, lo, hi);
    assert middle == Alive(cells, height, width, row, col - 1) + Alive(cells, height, width, row, col + 1);
    assert WindowSum(cells, height, width, row, col, rlo, rlo, lo, hi) == 0;
    if row == 0 {
      assert above == 0;
      if rhi == row + 2 {
        assert WindowSum(cells, height, width, row, col, rlo, rhi - 1, lo, hi) == middle;
      } else {
        assert below == 0;
      }
    } else {
      assert WindowSum(cells, height, width, row, col, rlo, rlo + 1, lo, hi) == above;
      if rhi == row + 2 {
        assert WindowSum(cells, height, width, row, col, rlo, rhi - 1, lo, hi) == above + middle;
      } else {
        assert below == 0;
      }
    }
  }

  /** `for (auto&& iter : set) file << iter;` on the text written so far:
      the elements in ascending order, each in decimal. */
  method WriteSet(text: seq<char>, s: set<int>) returns (r: seq<char>)
    ensures r == text + RuleText(s)
  {
    r := text;
    var rest := s;
    while rest != {}
      invariant r + RuleText(rest) == text + RuleText(s)
      decreases |rest|
    {
      var m :| m in rest && forall x :: x in rest ==> m <= x;
      assert m == SetMin(rest);
      r := r + IntToDecimal(m);
      rest := rest - {m};
    }
  }

  class Board {
    const height: nat
    const width: nat
    var cells: seq<seq<bool>>
    var temporary: seq<seq<bool>>
    var survives: set<int>
    var born: set<int>

    ghost predicate Valid()
      reads this
    {
      WellShaped(cells, height, width) && WellShaped(temporary, height, width)
    }

    /** The grid's value: dimensions and cells. */
    function ToGrid(): Grid
      reads this
    {
      Grid(height, width, cells)
    }

    /** `Board(height, width)`: all cells dead, rules B3/S23. (board.hpp
        names the parameters the other way round; the definition, and every
        caller, passes the height first.) */
    constructor (height: nat, width: nat)
      ensures Valid()
      ensures this.height == height && this.width == width
      ensures cells == DeadCells(height, width) && temporary == cells
      ensures survives == {2, 3} && born == {3}
    {
      this.height := height;
      this.width := width;
      cells := DeadCells(height, width);
      temporary := DeadCells(height, width);
      survives := {2, 3};
      born := {3};
    }

    /** `set_rules`: replaces both rule sets, nothing else. */
    method SetRules(survives: set<int>, born: set<int>)
      modifies this
      ensures this.survives == survives && this.born == born
      ensures cells == old(cells) && temporary == old(temporary)
    {
      this.survives := survives;
      this.born := born;
    }

    /** `add_at(row, col)`: makes that cell alive when it is on the board,
        and changes nothing else. */
    method AddAt(row: nat, col: nat)
      requires Valid()
      modifies this
      ensures Valid()
      ensures cells == SetCell(old(cells), height, width, row, col, true)
      ensures temporary == old(temporary) && survives == old(survives) && born == old(born)
    {
      if row < height && col < width {
        cells := cells[row := cells[row][col := true]];
      }
    }

    /** `kill_at(row, col)`: makes that cell dead when it is on the board,
        and changes nothing else. */
    method KillAt(row: nat, col: nat)
      requires Valid()
      modifies this
      ensures Valid()
      ensures cells == SetCell(old(cells), height, width, row, col, false)
      ensures temporary == old(temporary) && survives == old(survives) && born == old(born)
    {
      if row < height && col < width {
        cells := cells[row := cells[row][col := false]];
      }
    }

    /** `add_at(const Position&)`: the same as `add_at(row, col)`. */
    method AddAtPosition(p: Position)
      requires Valid()
      modifies this
      ensures Valid()
      ensures cells == SetCell(old(cells), height, width, p.row, p.col, true)
      ensures temporary == old(temporary) && survives == old(survives) && born == old(born)
    {
      AddAt(p.row, p.col);
    }

    /** `kill_at(const Position&)`: the same as `kill_at(row, col)`. */
    method KillAtPosition(p: Position)
      requires Valid()
      modifies this
      ensures Valid()
      ensures cells == SetCell(old(cells), height, width, p.row, p.col, false)
      ensures temporary == old(temporary) && survives == old(survives) && born == old(born)
    {
      KillAt(p.row, p.col);
    }

    /** The `count_neighbours` lambda of `iterate`: two loops over the 3x3
        window clipped to the board, skipping the centre. */
    method CountNeighbours(row: nat, col: nat) returns (n: nat)
      requires Valid() && row < height && col < width
      ensures n == NeighbourCount(cells, height, width, row, col)
    {
      var rlo, rhi := Max(1, row) - 1, Min(row + 2, height);
      var lo, hi := Max(1, col) - 1, Min(col + 2, width);
      n := 0;
      var rowIter := rlo;
      while rowIter < rhi
        invariant rlo <= rowIter <= rhi
        invariant n == WindowSum(cells, height, width, row, col, rlo, rowIter, lo, hi)
      {
        var colIter := lo;
        while colIter < hi
          invariant lo <= colIter <= hi
          invariant n == WindowSum(cells, height, width, row, col, rlo, rowIter, lo, hi) +
                         RowSum(cells, height, width, row, col, rowIter, lo, colIter)
        {
          if !(rowIter == row && colIter == col) {
            if cells[rowIter][colIter] {
              n := n + 1;
            }
          }
          colIter := colIter + 1;
        }
        rowIter := rowIter + 1;
      }
      ClippedWindow(cells, height, width, row, col);
    }

    /** `iterate`: fills the buffer cell by cell from the current grid, then
        copies the buffer over the grid. Dimensions and rules do not change. */
    method Iterate()
      requires Valid()
      modifies this
      ensures Valid()
      ensures cells == Step(old(cells), height, width, born, survives)
      ensures temporary == cells
      ensures survives == old(survives) && born == old(born)
    {
      var row := 0;
      while row < height
        invariant 0 <= row <= height
        invariant Valid() && cells == old(cells)
        invariant survives == old(survives) && born == old(born)
        invariant forall r, c :: 0 <= r < row && 0 <= c < width ==>
          temporary[r][c] == NextCell(cells, height, width, born, survives, r, c)
      {
        var col := 0;
        while col < width
          invariant 0 <= col <= width
          invariant Valid() && cells == old(cells)
          invariant survives == old(survives) && born == old(born)
          invariant forall r, c :: 0 <= r < row && 0 <= c < width ==>
            temporary[r][c] == NextCell(cells, height, width, born, survives, r, c)
          invariant forall c :: 0 <= c < col ==>
            temporary[row][c] == NextCell(cells, height, width, born, survives, row, c)
        {
          var neighbours := CountNeighbours(row, col);
          var v;
          if cells[row][col] {
            if neighbours in survives {
              v := true;
            } else {
              v := false;
            }
          } else {
            if neighbours in born {
              v := true;
            } else {
              v := false;
            }
          }
          temporary := temporary[row := temporary[row][col := v]];
          col := col + 1;
        }
        row := row + 1;
      }
      var next := Step(cells, height, width, born, survives);
      assert forall r :: 0 <= r < height ==> temporary[r] == next[r];
      cells := temporary;
    }

    /** The header lines of `dump_to_file`. */
    method WriteHeader() returns (text: seq<char>)
      ensures text == HeaderText(width, height, born, survives)
    {
      text := "# Auto generated map file\n";
      text := text + "x = " + IntToDecimal(width) + ", y = " + IntToDecimal(height) + ", ";
      text := text + "rule = B";
      text := WriteSet(text, born);
      text := text + "/S";
      text := WriteSet(text, survives);
      text := text + "\n";
    }

    /** One turn of the cursor loop of `dump_to_file`: `$` when the cursor
        starts a row other than the first, then the cell's marker, handed to
        `out_marker`. */
    method WriteCell(writer: LineWriter, iter: Position, ghost n: nat)
      requires Valid() && width > 0 && n < height * width
      requires iter == Advance(Begin(), n, width)
      requires writer.Valid() && writer.markers == MarkersUpTo(cells, height, width, n)
      modifies writer
      ensures writer.Valid() && writer.markers == MarkersUpTo(cells, height, width, n + 1)
    {
      MarkersUpToStep(cells, height, width, n);
      if iter != Begin() && iter.col == 0 {
        writer.OutMarker('$');
      }
      var m := if cells[iter.row][iter.col] then 'o' else 'b';
      writer.OutMarker(m);
    }

    /** The cursor loop of `dump_to_file`: every cell's marker, and `$`
        before each row but the first, handed to `out_marker`. */
    method WriteCells(writer: LineWriter)
      requires Valid() && (width > 0 || height == 0)
      requires writer.Valid() && writer.markers == []
      modifies writer
      ensures writer.Valid() && writer.markers == MarkersUpTo(cells, height, width, height * width)
    {
      var iter := Begin();
      ghost var n: nat := 0;
      while iter != End(height)
        invariant n <= height * width
        invariant width > 0 ==> iter == Advance(Begin(), n, width)
        invariant width == 0 ==> iter == Begin()
        invariant writer.Valid() && writer.markers == MarkersUpTo(cells, height, width, n)
        decreases height * width - n
      {
        AtEndExactly(height, width, n);
        WriteCell(writer, iter, n);
        iter := Next(iter, width);
        n := n + 1;
        assert iter == Advance(Begin(), n, width);
      }
      if width > 0 {
        AtEndExactly(height, width, n);
      } else {
        assert height == 0 && height * width == 0;
      }
      assert n == height * width;
    }

    /** `dump_to_file`, returning what it writes instead of writing it to
        a file. The cursor loop needs every row to have a cell to read, so
        a board without columns must have no rows either. */
    method DumpToText() returns (text: seq<char>)
      requires Valid() && (width > 0 || height == 0)
      ensures text == EncodeText(cells, height, width, born, survives)
    {
      text := WriteHeader();
      var writer := new LineWriter();
      WriteCells(writer);
      writer.OutMarker('!');
      assert writer.markers == BodyMarkers(cells, height, width);
      ghost var layout := Layout(BodyPieces(cells, height, width));
      assert writer.out == layout.0;
      text := text + writer.out + "\n";
    }
  }

  /** A grid with no live cell stays empty exactly when 0 is not a birth
      count. */
  lemma EmptyStaysEmpty(height: nat, width: nat, born: set<int>, survives: set<int>)
    requires height > 0 && width > 0
    ensures (Step(DeadCells(height, width), height, width, born, survives) == DeadCells(height, width))
        <==> 0 !in born
  {
    var dead := DeadCells(height, width);
    var next := Step(dead, height, width, born, survives);
    assert NeighbourCount(dead, height, width, 0, 0) == 0;
    if 0 !in born {
      forall r | 0 <= r < height
        ensures next[r] == dead[r]
      {
        forall c | 0 <= c < width
          ensures next[r][c] == dead[r][c]
        {
          assert NeighbourCount(dead, height, width, r, c) == 0;
        }
      }
    } else {
      assert next[0][0] != dead[0][0];
    }
  }

  /** A live cell with no live neighbour dies unless 0 is a survival
      count. */
  lemma LoneCellDies(height: nat, width: nat, row: nat, col: nat, born: set<int>, survives: set<int>)
    requires row < height && col < width
    ensures var cells := SetCell(DeadCells(height, width), height, width, row, col, true);
      Step(cells, height, width, born, survives)[row][col] == (0 in survives)
  {
    var cells := SetCell(DeadCells(height, width), height, width, row, col, true);
    assert NeighbourCount(cells, height, width, row, col) == 0;
  }
}
