// The text that `Board::dump_to_file` writes (src/board.cpp:138-208), as
// functions: a header line, then the cells in row-major order as
// run-length markers (`o` alive, `b` dead, `$` before every row but the
// first, `!` at the end), where equal markers collapse into `<count><marker>`
// and the output wraps at 80 columns without ever splitting a run.
//
// The three lambdas of `dump_to_file` share the captured variables
// `line_length`, `previous_char` and `previous_char_counter`; they are the
// methods of `LineWriter`, whose fields are those variables and the text
// written so far.

module Encoding {
  import opened Text
  import opened Cursor
  import opened Grids

  /** `max_line_len`. */
  const MaxLineLen: int := 80

  /** One write of the body: `out_char(c)` or `out_string(s)`. */
  datatype Piece = Chr(c: char) | Str(s: seq<char>)

  /** The run that `out_marker` has seen but not written yet:
      `previous_char` and `previous_char_counter`. */
  datatype Pending = Pending(previousChar: char, counter: nat)

  /** Nothing pending: `previous_char = 0`, `previous_char_counter = 0`. */
  const NoRun := Pending('\0', 0)

  function PieceText(p: Piece): seq<char> {
    match p
    case Chr(c) => [c]
    case Str(s) => s
  }

  /** How `out_marker` writes the pending run when a different marker
      arrives: `<count><marker>` through `out_string` for a count above 1,
      the bare marker through `out_char` for a count of 1, nothing for 0. */
  function Flush(p: Pending): seq<Piece> {
    if p.counter > 1 then [Str(NatToDecimal(p.counter) + [p.previousChar])]
    else if p.counter == 1 then [Chr(p.previousChar)]
    else []
  }

  /** `out_marker(c)`: the writes it makes and the new pending run. */
  function MarkerStep(p: Pending, c: char): (seq<Piece>, Pending) {
    if p.previousChar == c then ([], Pending(c, p.counter + 1))
    else if c == 'o' || c == 'b' then (Flush(p), Pending(c, 1))
    else (Flush(p) + [Chr(c)], NoRun)
  }

  /** `out_marker` applied to every marker of `ms` in turn, from nothing
      pending: all writes made, and what is pending at the end. */
  function RunLength(ms: seq<char>): (seq<Piece>, Pending) {
    if ms == [] then ([], NoRun)
    else
      var (ps, p) := RunLength(ms[..|ms| - 1]);
      var (more, p') := MarkerStep(p, ms[|ms| - 1]);
      (ps + more, p')
  }

  /** `RunLength` one marker further. */
  lemma RunLengthSnoc(ms: seq<char>, c: char)
    ensures RunLength(ms + [c]) ==
      (RunLength(ms).0 + MarkerStep(RunLength(ms).1, c).0, MarkerStep(RunLength(ms).1, c).1)
  {
    assert (ms + [c])[..|ms|] == ms;
  }

  /** Whether `out_char` / `out_string` start a new line before writing the
      piece: a single character only once the line is already longer than
      80, a string whenever it would make the line longer than 80. */
  function BreaksBefore(lineLength: int, p: Piece): bool {
    match p
    case Chr(_) => lineLength > MaxLineLen
    case Str(s) => lineLength + |s| > MaxLineLen
  }

  /** The text the writes `ps` produce from an empty line, and the final
      `line_length`. */
  function Layout(ps: seq<Piece>): (seq<char>, int) {
    if ps == [] then ([], 0)
    else
      var (text, len) := Layout(ps[..|ps| - 1]);
      var p := ps[|ps| - 1];
      if BreaksBefore(len, p) then (text + ['\n'] + PieceText(p), |PieceText(p)|)
      else (text + PieceText(p), len + |PieceText(p)|)
  }

  /** The marker of a cell: `o` alive, `b` dead (the cursor loop only
      reads cells on the board). */
  function CellMarker(cells: seq<seq<bool>>, height: nat, width: nat, p: Position): char
    requires WellShaped(cells, height, width)
  {
    if p.row < height && p.col < width && cells[p.row][p.col] then 'o' else 'b'
  }

  /** The markers the cursor loop hands to `out_marker` for the first `n`
      cells: `$` on reaching column 0 of any row but the first, then the
      cell's marker. */
  function MarkersUpTo(cells: seq<seq<bool>>, height: nat, width: nat, n: nat): seq<char>
    requires WellShaped(cells, height, width) && n <= height * width
  {
    if n == 0 then []
    else
      var p := Advance(Begin(), n - 1, width);
      MarkersUpTo(cells, height, width, n - 1) +
      (if p != Begin() && p.col == 0 then ['$'] else []) +
      [CellMarker(cells, height, width, p)]
  }

  /** One more cell: the `n`-th cursor position is on the board, and its
      markers follow those of the cells before it. */
  lemma MarkersUpToStep(cells: seq<seq<bool>>, height: nat, width: nat, n: nat)
    requires WellShaped(cells, height, width) && n < height * width
    ensures var p := Advance(Begin(), n, width);
      p.row < height && p.col < width &&
      MarkersUpTo(cells, height, width, n + 1) ==
        MarkersUpTo(cells, height, width, n) +
        (if p != Begin() && p.col == 0 then ['$'] else []) + [CellMarker(cells, height, width, p)]
  {
    BeginToEnd(height, width);
  }

  /** Every marker of the body, `!` last. */
  function BodyMarkers(cells: seq<seq<bool>>, height: nat, width: nat): seq<char>
    requires WellShaped(cells, height, width)
  {
    MarkersUpTo(cells, height, width, height * width) + ['!']
  }

  /** The writes of the body: the run-length encoding of its markers. */
  function BodyPieces(cells: seq<seq<bool>>, height: nat, width: nat): seq<Piece>
    requires WellShaped(cells, height, width)
  {
    RunLength(BodyMarkers(cells, height, width)).0
  }

  /** The least element of a non-empty set: where iteration over a
      `std::set<int>` starts. */
  ghost function SetMin(s: set<int>): (m: int)
    requires s != {}
    ensures m in s && forall x :: x in s ==> m <= x
    decreases |s|
  {
    NonEmptyHasElement(s);
    var x :| x in s;
    if s == {x} then x
    else
      var y := SetMin(s - {x});
      assert forall z :: z in s ==> z == x || z in s - {x};
      if x < y then x else y
  }

  lemma NonEmptyHasElement(s: set<int>)
    requires s != {}
    ensures exists x :: x in s
  {
    if forall x :: x !in s {
      assert false;
    }
  }

  /** `for (auto&& iter : set) file << iter;`: the elements in ascending
      order, each in decimal, with nothing between them. */
  ghost function RuleText(s: set<int>): seq<char>
    decreases |s|
  {
    if s == {} then []
    else IntToDecimal(SetMin(s)) + RuleText(s - {SetMin(s)})
  }

  /** The comment line and `x = W, y = H, rule = B<born>/S<survives>`. */
  ghost function HeaderText(width: nat, height: nat, born: set<int>, survives: set<int>): seq<char> {
    "# Auto generated map file\n" +
    "x = " + IntToDecimal(width) + ", y = " + IntToDecimal(height) + ", " +
    "rule = B" + RuleText(born) + "/S" + RuleText(survives) + "\n"
  }

  /** Everything `dump_to_file` writes for a board. */
  ghost function EncodeText(cells: seq<seq<bool>>, height: nat, width: nat, born: set<int>, survives: set<int>): seq<char>
    requires WellShaped(cells, height, width)
  {
    HeaderText(width, height, born, survives) + Layout(BodyPieces(cells, height, width)).0 + "\n"
  }

  /** The state shared by the `out_char`, `out_string` and `out_marker`
      lambdas, and the body text written so far. `pieces` are the writes
      made and `markers` the markers handed to `out_marker`. */
  class LineWriter {
    var out: seq<char>
    var lineLength: int
    var previousChar: char
    var previousCharCounter: nat
    ghost var pieces: seq<Piece>
    ghost var markers: seq<char>

    /** The text and line length are the layout of the writes. */
    ghost predicate LaidOut()
      reads this
    {
      (out, lineLength) == Layout(pieces)
    }

    /** In addition, the writes and the pending run are the run-length
        encoding of the markers. */
    ghost predicate Valid()
      reads this
    {
      LaidOut() && (pieces, PendingRun()) == RunLength(markers)
    }

    function PendingRun(): Pending
      reads this
    {
      Pending(previousChar, previousCharCounter)
    }

    constructor ()
      ensures Valid() && markers == [] && pieces == []
    {
      out := [];
      lineLength := 0;
      previousChar := '\0';
      previousCharCounter := 0;
      pieces := [];
      markers := [];
    }

    /** `out_char(c)`. */
    method OutChar(c: char)
      requires LaidOut()
      modifies this
      ensures LaidOut() && pieces == old(pieces) + [Chr(c)]
      ensures PendingRun() == old(PendingRun()) && markers == old(markers)
    {
      if lineLength > MaxLineLen {
        out := out + ['\n'];
        lineLength := 0;
      }
      lineLength := lineLength + 1;
      out := out + [c];
      pieces := pieces + [Chr(c)];
      assert pieces[..|pieces| - 1] == old(pieces);
    }

    /** `out_string(s)`. */
    method OutString(s: seq<char>)
      requires LaidOut()
      modifies this
      ensures LaidOut() && pieces == old(pieces) + [Str(s)]
      ensures PendingRun() == old(PendingRun()) && markers == old(markers)
    {
      if lineLength + |s| > MaxLineLen {
        out := out + ['\n'];
        lineLength := 0;
      }
      lineLength := lineLength + |s|;
      out := out + s;
      pieces := pieces + [Str(s)];
      assert pieces[..|pieces| - 1] == old(pieces);
    }

    /** `out_marker(c)`. */
    method OutMarker(c: char)
      requires Valid()
      modifies this
      ensures Valid() && markers == old(markers) + [c]
      ensures pieces == old(pieces) + MarkerStep(old(PendingRun()), c).0
    {
      MarkerWrites(c);
      RunLengthSnoc(markers, c);
      markers := markers + [c];
    }

    /** The writes of `out_marker(c)` and its new pending run, apart from
        the markers seen. */
    method MarkerWrites(c: char)
      requires LaidOut()
      modifies this
      ensures LaidOut() && markers == old(markers)
      ensures pieces == old(pieces) + MarkerStep(old(PendingRun()), c).0
      ensures PendingRun() == MarkerStep(old(PendingRun()), c).1
    {
      if previousChar == c {
        previousCharCounter := previousCharCounter + 1;
      } else {
        ghost var run := PendingRun();
        FlushRun();
        if c == 'o' || c == 'b' {
          previousChar := c;
          previousCharCounter := 1;
        } else {
          previousChar := '\0';
          previousCharCounter := 0;
          OutChar(c);
          assert pieces == old(pieces) + (Flush(run) + [Chr(c)]);
        }
      }
    }

    /** The part of `out_marker(c)` that writes the pending run when `c`
        is a different marker. */
    method FlushRun()
      requires LaidOut()
      modifies this
      ensures LaidOut() && pieces == old(pieces) + Flush(old(PendingRun()))
      ensures PendingRun() == old(PendingRun()) && markers == old(markers)
    {
      if previousCharCounter > 1 {
        OutString(NatToDecimal(previousCharCounter) + [previousChar]);
      } else if previousCharCounter == 1 {
        OutChar(previousChar);
      }
    }
  }
}
