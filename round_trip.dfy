// The round trip of a board through its pattern file: the text that
// `Board::dump_to_file` writes (src/board.cpp:138-208), read back by
// `parse_stream` (src/rtl_parser.cpp:782-792), gives a board of the same
// size with the same cells, and no diagnostic at all. The rules written in
// the header are read into `m_born` and `m_survives` one digit at a time,
// but the parser never hands them to the board, so they do not come back.
//
// Module `OutputLexing` gives the tokens of the written text; this module
// follows the parser through them: the header leaves a dead board of the
// right size with the cursor at its first cell, each run paints the cells
// it stands for, and each `$` finds the cursor already at the start of the
// next row.

module RoundTrip {
  import opened Wrappers
  import opened Text
  import opened Tokens
  import opened Lexing
  import opened Cursor
  import opened Grids
  import opened Parsing
  import opened Encoding
  import opened EncodingFacts
  import OutputLexing
  import opened ParsingFacts

  /** The parser's current symbol is the token at index `k`. */
  predicate Reading(toks: seq<Token>, st: PState, k: nat) {
    k < |toks| && st.next == k + 1 && st.symbol == toks[k].kind && st.cachedText == toks[k].text
  }

  /** The cells of `cells` up to row-major index `n`, and dead cells after. */
  function Painted(cells: seq<seq<bool>>, height: nat, width: nat, n: nat): (g: seq<seq<bool>>)
    requires WellShaped(cells, height, width)
    ensures WellShaped(g, height, width)
    ensures forall i, j :: 0 <= i < height && 0 <= j < width ==> g[i][j] == (i * width + j < n && cells[i][j])
  {
    seq(height, i requires 0 <= i < height => seq(width, j requires 0 <= j < width => i * width + j < n && cells[i][j]))
  }

  /** The parser has drawn the first `n` cells of `cells`, in row-major
      order, on a board of the right size, the cursor stands at the next
      cell, and nothing has been reported. */
  predicate Drawn(st: PState, cells: seq<seq<bool>>, height: nat, width: nat, n: nat)
    requires WellShaped(cells, height, width)
  {
    st.errors == 0 && st.log == [] && width > 0 &&
    st.grid == Some(Grid(height, width, Painted(cells, height, width, n))) &&
    st.position.col < width && Index(st.position, width) == n
  }

  /** Writing `count` times `v` from the cursor at index `n` draws the next
      `count` cells, when those cells of `cells` are `v`. */
  lemma {:induction false} PaintRun(cells: seq<seq<bool>>, height: nat, width: nat, n: nat, p: Position, count: nat, v: bool)
    requires WellShaped(cells, height, width) && p.col < width && Index(p, width) == n
    requires forall i, j :: 0 <= i < height && 0 <= j < width && n <= i * width + j < n + count ==> cells[i][j] == v
    ensures var (g, q) := Fill(Grid(height, width, Painted(cells, height, width, n)), p, count, v);
      g == Grid(height, width, Painted(cells, height, width, n + count)) && q.col < width && Index(q, width) == n + count
  {
    var g0 := Grid(height, width, Painted(cells, height, width, n));
    FillEffect(g0, p, count, v);
    var (g, q) := Fill(g0, p, count, v);
    SameCells(g.cells, Painted(cells, height, width, n + count), height, width);
  }

  /** A run that starts at column `c` of row `r` and stays in the row
      covers exactly the columns `c` to `c + count - 1` of that row. */
  lemma {:induction false} RunInRow(i: nat, j: nat, r: nat, c: nat, count: nat, width: nat)
    requires j < width && c + count <= width
    requires r * width + c <= i * width + j < r * width + c + count
    ensures i == r && c <= j < c + count
  {
    RestOfRow(Position(i, j), Position(r, c), width);
  }

  /** The tokens of one run piece, read by `pattern()` from the cursor:
      the cells it stands for are written, and the parser moves on to the
      token after the piece. */
  lemma {:induction false} RunParse(toks: seq<Token>, st: PState, k: nat, p: Piece)
    requires RunPiece(p) && Drawing(st) && Reading(toks, st, k)
    requires k + |RunTokens(p)| < |toks| && !IsErrorKind(toks[k + |RunTokens(p)|].kind)
    requires toks[k..k + |RunTokens(p)|] == RunTokens(p)
    ensures st.symbol == Number || st.symbol == B || st.symbol == O
    ensures var s := Pattern(toks, st);
      var (g, q) := Fill(st.grid.value, st.position, RunCount(p), RunMarker(p) == 'o');
      Reading(toks, s, k + |RunTokens(p)|) && s.grid == Some(g) && s.position == q &&
      s.errors == st.errors && s.log == st.log
  {
    var pt := RunTokens(p);
    assert toks[k] == pt[0];
    match p
    case Chr(c) =>
      assert pt == [Marker(c)];
      assert toks[k + 1] == toks[k + |pt|];
    case Str(s) =>
      var d, c := s[..|s| - 1], s[|s| - 1];
      assert pt == [Token(Number, d), Marker(c)];
      assert toks[k + 1] == pt[1];
      assert toks[k + 2] == toks[k + |pt|];
      var s1 := NextSymbol(toks, st);
      assert Stoi(s1.currentText) == RunCount(p);
  }

  /** The token of the marker of a run: `o` or `b`. */
  function Marker(c: char): Token {
    Token(if c == 'o' then O else B, [c])
  }

  /** The tokens of a run piece: its count, if any, then its marker. */
  function RunTokens(p: Piece): seq<Token> {
    match p
    case Chr(c) => [Marker(c)]
    case Str(s) => if s == [] then [] else [Token(Number, s[..|s| - 1]), Marker(s[|s| - 1])]
  }

  /** The tokens of a list of run pieces, gathered from the front. */
  function FrontTokens(ps: seq<Piece>): seq<Token> {
    if ps == [] then [] else RunTokens(ps[0]) + FrontTokens(ps[1..])
  }

  /** A run piece is read as the tokens `RunTokens` lists. */
  lemma {:induction false} RunTokensAre(p: Piece)
    requires RunPiece(p)
    ensures RunTokens(p) == OutputLexing.PieceTokens(p)
  {
  }

  /** The tokens of a list of pieces: those of its first piece, then
      those of the rest. */
  lemma {:induction false} PiecesFront(ps: seq<Piece>)
    requires ps != []
    ensures OutputLexing.PiecesTokens(ps) ==
      OutputLexing.PieceTokens(ps[0]) + OutputLexing.PiecesTokens(ps[1..])
  {
    OutputLexing.PiecesTokensAppend([ps[0]], ps[1..]);
    assert [ps[0]] + ps[1..] == ps;
    SinglePiece(ps[0]);
  }

  /** The tokens of one piece alone. */
  lemma SinglePiece(p: Piece)
    ensures OutputLexing.PiecesTokens([p]) == OutputLexing.PieceTokens(p)
  {
    assert [p][..0] == [];
  }

  /** Gathered from the front or from the back, the tokens of a list of
      run pieces are the same. */
  lemma {:induction false} FrontTokensAre(ps: seq<Piece>)
    requires AllRuns(ps)
    ensures FrontTokens(ps) == OutputLexing.PiecesTokens(ps)
    decreases |ps|
  {
    if ps != [] {
      PiecesFront(ps);
      RunTokensAre(ps[0]);
      FrontTokensAre(ps[1..]);
    }
  }

  /** The run pieces `ps` stand for the cells of `row` from column `c`
      to its end: each run stays in the row and all its cells have its
      marker. */
  predicate Covers(row: seq<bool>, c: nat, ps: seq<Piece>)
    decreases |ps|
  {
    if ps == [] then c == |row|
    else
      RunPiece(ps[0]) && c + RunCount(ps[0]) <= |row| &&
      (forall j :: c <= j < c + RunCount(ps[0]) ==> row[j] == (RunMarker(ps[0]) == 'o')) &&
      Covers(row, c + RunCount(ps[0]), ps[1..])
  }

  /** Run pieces that expand to the markers of `row` from column `c` on
      cover the row from there. */
  lemma {:induction false} ExpandCovers(ps: seq<Piece>, row: seq<bool>, c: nat)
    requires forall i :: 0 <= i < |ps| ==> RunPiece(ps[i])
    requires c <= |row| && Expand(ps) == RowMarkers(row)[c..]
    ensures Covers(row, c, ps)
    decreases |ps|
  {
    if ps == [] {
      assert |RowMarkers(row)[c..]| == 0;
    } else {
      var count, m := RunCount(ps[0]), RunMarker(ps[0]);
      var ms := RowMarkers(row)[c..];
      assert Expand(ps) == Repeat(m, count) + Expand(ps[1..]);
      forall j | c <= j < c + count
        ensures row[j] == (m == 'o')
      {
        assert ms[j - c] == m;
      }
      assert Expand(ps[1..]) == ms[count..];
      ExpandCovers(ps[1..], row, c + count);
    }
  }

  /** The loop of runs stops at any symbol but a number, `b` or `o`. */
  lemma {:induction false} NoMoreRuns(toks: seq<Token>, st: PState)
    requires st.next <= |toks| && Drawing(st) && st.symbol in {Dollar, ExclamationMark}
    ensures MorePatterns(toks, st) == st
  {
  }

  /** At a number, `b` or `o`, the loop of runs reads one run and goes
      on; `line_pattern()` does the same. */
  lemma {:induction false} OneMoreRun(toks: seq<Token>, st: PState)
    requires st.next <= |toks| && Drawing(st) && st.symbol in {Number, B, O}
    ensures MorePatterns(toks, st) == MorePatterns(toks, Pattern(toks, st))
  {
  }

  /** Every piece of `ps` is a run. */
  predicate AllRuns(ps: seq<Piece>) {
    forall i :: 0 <= i < |ps| ==> RunPiece(ps[i])
  }

  /** The board and cursor after writing the runs `ps` in turn. */
  function FillRuns(g: Grid, p: Position, ps: seq<Piece>): (r: (Grid, Position))
    requires WellShaped(g.cells, g.height, g.width) && AllRuns(ps)
    ensures r.0.height == g.height && r.0.width == g.width && WellShaped(r.0.cells, g.height, g.width)
    ensures p.col < g.width ==> r.1.col < g.width
    decreases |ps|
  {
    if ps == [] then (g, p)
    else
      var (g1, p1) := Fill(g, p, RunCount(ps[0]), RunMarker(ps[0]) == 'o');
      FillRuns(g1, p1, ps[1..])
  }

  /** From index `k` on, `toks` holds the tokens of the runs `ps`, then
      a `$` or a `!`. */
  predicate RunsAt(toks: seq<Token>, k: nat, ps: seq<Piece>)
    decreases |ps|
  {
    if ps == [] then k < |toks| && toks[k].kind in {Dollar, ExclamationMark}
    else
      k + |RunTokens(ps[0])| <= |toks| && toks[k..k + |RunTokens(ps[0])|] == RunTokens(ps[0]) &&
      RunsAt(toks, k + |RunTokens(ps[0])|, ps[1..])
  }

  /** The token at the start of runs is a run's first token, or the `$`
      or `!` after them: never an error token. */
  lemma {:induction false} RunsAtStart(toks: seq<Token>, k: nat, ps: seq<Piece>)
    requires AllRuns(ps) && RunsAt(toks, k, ps)
    ensures k < |toks| && !IsErrorKind(toks[k].kind)
    ensures toks[k].kind in {Number, B, O} <==> ps != []
  {
    if ps != [] {
      var ts := RunTokens(ps[0]);
      assert toks[k] == toks[k..k + |ts|][0];
    }
  }

  /** The parser state `s` is what reading the runs `ps` from index `k`
      leaves, starting from `st`: it reads the token after them, the runs
      are written in turn, and nothing has been reported on the way. */
  predicate RunsRead(toks: seq<Token>, st: PState, k: nat, ps: seq<Piece>, s: PState)
    requires Drawing(st) && AllRuns(ps)
  {
    var r := FillRuns(st.grid.value, st.position, ps);
    Reading(toks, s, k + |FrontTokens(ps)|) && s.grid == Some(r.0) && s.position == r.1 &&
    s.errors == st.errors && s.log == st.log
  }

  /** One run, then the rest of the runs, is all the runs. */
  lemma {:induction false} RunsReadStep(toks: seq<Token>, st: PState, st1: PState, k: nat, ps: seq<Piece>, s: PState)
    requires Drawing(st) && Drawing(st1) && AllRuns(ps) && ps != []
    requires var r := Fill(st.grid.value, st.position, RunCount(ps[0]), RunMarker(ps[0]) == 'o');
      st1.grid == Some(r.0) && st1.position == r.1 && st1.errors == st.errors && st1.log == st.log
    requires RunsRead(toks, st1, k + |RunTokens(ps[0])|, ps[1..], s)
    ensures RunsRead(toks, st, k, ps, s)
  {
    assert |FrontTokens(ps)| == |RunTokens(ps[0])| + |FrontTokens(ps[1..])|;
  }

  /** The tokens of the runs `ps`, read by the loop of runs: the runs are
      written in turn, and the loop stops at the `$` or `!` after them. */
  lemma {:induction false} RunsParse(toks: seq<Token>, st: PState, k: nat, ps: seq<Piece>)
    requires AllRuns(ps) && RunsAt(toks, k, ps) && Reading(toks, st, k) && Drawing(st)
    ensures RunsRead(toks, st, k, ps, MorePatterns(toks, st))
    decreases |ps|
  {
    if ps == [] {
      NoMoreRuns(toks, st);
    } else {
      var n := k + |RunTokens(ps[0])|;
      RunsAtStart(toks, n, ps[1..]);
      RunParse(toks, st, k, ps[0]);
      OneMoreRun(toks, st);
      var st1 := Pattern(toks, st);
      RunsParse(toks, st1, n, ps[1..]);
      RunsReadStep(toks, st, st1, k, ps, MorePatterns(toks, st1));
    }
  }

  /** The runs of a closed row are runs, and they stand for the whole row. */
  lemma {:induction false} ClosedCovers(row: seq<bool>)
    ensures AllRuns(Closed(row)) && Covers(row, 0, Closed(row))
  {
    ClosedExpands(row);
    assert RowMarkers(row)[0..] == RowMarkers(row);
    ExpandCovers(Closed(row), row, 0);
  }

  /** Runs that cover row `r` of `cells` from column `c`, written from the
      cursor at that cell on a board drawn up to it, draw the rest of the
      row and leave the cursor at the start of the next row. */
  lemma {:induction false} PaintRuns(cells: seq<seq<bool>>, height: nat, width: nat, r: nat, c: nat, ps: seq<Piece>, g: Grid, p: Position)
    requires WellShaped(cells, height, width) && r < height && AllRuns(ps) && Covers(cells[r], c, ps)
    requires g == Grid(height, width, Painted(cells, height, width, r * width + c))
    requires p.col < width && Index(p, width) == r * width + c
    ensures var res := FillRuns(g, p, ps);
      res.0 == Grid(height, width, Painted(cells, height, width, r * width + width)) &&
      res.1.col < width && Index(res.1, width) == r * width + width
    decreases |ps|
  {
    if ps != [] {
      var count, v := RunCount(ps[0]), RunMarker(ps[0]) == 'o';
      forall i, j | 0 <= i < height && 0 <= j < width && r * width + c <= i * width + j < r * width + c + count
        ensures cells[i][j] == v
      {
        RunInRow(i, j, r, c, count, width);
      }
      PaintRun(cells, height, width, r * width + c, p, count, v);
      var res1 := Fill(g, p, count, v);
      PaintRuns(cells, height, width, r, c + count, ps[1..], res1.0, res1.1);
    }
  }

  /** Runs that cover row `r`, read from the start of that row: the row
      is drawn, and the cursor stands at the start of the next row. */
  lemma {:induction false} RowDrawn(toks: seq<Token>, st: PState, k: nat, cells: seq<seq<bool>>, height: nat, width: nat, r: nat, ps: seq<Piece>, s: PState)
    requires WellShaped(cells, height, width) && r < height && AllRuns(ps) && Covers(cells[r], 0, ps)
    requires Drawn(st, cells, height, width, r * width) && RunsRead(toks, st, k, ps, s)
    ensures Drawn(s, cells, height, width, (r + 1) * width) && s.position == Position(r + 1, 0)
  {
    assert st.grid.value == Grid(height, width, Painted(cells, height, width, r * width + 0));
    PaintRuns(cells, height, width, r, 0, ps, st.grid.value, st.position);
    RowFits(r, height, width);
    IndexInjective(s.position, Position(r + 1, 0), width);
  }

  /** `line_pattern()` at a number, `b` or `o` is the loop of runs. */
  lemma {:induction false} LineIsMore(toks: seq<Token>, st: PState)
    requires st.next <= |toks| && Drawing(st) && st.symbol in {Number, B, O}
    ensures LinePattern(toks, st) == MorePatterns(toks, st)
  {
  }

  /** Runs read by `line_pattern()`: at least one run, so the same as the
      loop of runs. */
  lemma {:induction false} LineRead(toks: seq<Token>, st: PState, k: nat, ps: seq<Piece>)
    requires AllRuns(ps) && ps != [] && RunsAt(toks, k, ps) && Reading(toks, st, k) && Drawing(st)
    ensures RunsRead(toks, st, k, ps, LinePattern(toks, st))
  {
    RunsAtStart(toks, k, ps);
    LineIsMore(toks, st);
    RunsParse(toks, st, k, ps);
  }

  /** The rows of `cells` before row `r`, and dead rows from there on. */
  function FirstRows(cells: seq<seq<bool>>, height: nat, width: nat, r: nat): (g: seq<seq<bool>>)
    requires WellShaped(cells, height, width)
    ensures WellShaped(g, height, width)
    ensures forall i, j :: 0 <= i < height && 0 <= j < width ==> g[i][j] == (i < r && cells[i][j])
  {
    seq(height, i requires 0 <= i < height => seq(width, j requires 0 <= j < width => i < r && cells[i][j]))
  }

  /** The parser has drawn the rows of `cells` before row `r`, and the
      cursor stands at the start of row `r`: `Drawn` at a row boundary. */
  predicate RowsDrawn(st: PState, cells: seq<seq<bool>>, height: nat, width: nat, r: nat)
    requires WellShaped(cells, height, width)
  {
    st.errors == 0 && st.log == [] && width > 0 &&
    st.grid == Some(Grid(height, width, FirstRows(cells, height, width, r))) && st.position == Position(r, 0)
  }

  /** A cell is before the start of row `r` exactly when its row is. */
  lemma {:induction false} BeforeRow(i: nat, j: nat, r: nat, width: nat)
    requires j < width
    ensures (i < r) == (i * width + j < r * width)
  {
    if i < r {
      MulMonotone(i + 1, r, width);
      assert (i + 1) * width == i * width + width;
    } else {
      MulMonotone(r, i, width);
    }
  }

  /** Drawing up to the start of row `r` is drawing its first `r` rows. */
  lemma {:induction false} FirstRowsPainted(cells: seq<seq<bool>>, height: nat, width: nat, r: nat)
    requires WellShaped(cells, height, width)
    ensures FirstRows(cells, height, width, r) == Painted(cells, height, width, r * width)
  {
    var a, b := FirstRows(cells, height, width, r), Painted(cells, height, width, r * width);
    forall i, j | 0 <= i < height && 0 <= j < width
      ensures a[i][j] == b[i][j]
    {
      BeforeRow(i, j, r, width);
    }
    SameCells(a, b, height, width);
  }

  /** `RowsDrawn` and `Drawn` agree at the start of a row. */
  lemma {:induction false} RowsDrawnIff(st: PState, cells: seq<seq<bool>>, height: nat, width: nat, r: nat)
    requires WellShaped(cells, height, width)
    ensures RowsDrawn(st, cells, height, width, r) <==>
      Drawn(st, cells, height, width, r * width) && st.position == Position(r, 0)
  {
    FirstRowsPainted(cells, height, width, r);
  }

  /** A `$` read where the cursor already stands at the start of row `r`:
      `finnish_line()` has nothing to do and the row check passes. */
  lemma {:induction false} DollarStep(toks: seq<Token>, st: PState, k: nat, cells: seq<seq<bool>>, height: nat, width: nat, r: nat)
      returns (s1: PState)
    requires WellShaped(cells, height, width) && 0 < r
    requires RowsDrawn(st, cells, height, width, r) && Reading(toks, st, k)
    requires k + 1 < |toks| && !IsErrorKind(toks[k + 1].kind)
    ensures s1 == CloseRow(toks, NextSymbol(toks, st), r - 1)
    ensures Reading(toks, s1, k + 1) && RowsDrawn(s1, cells, height, width, r) && s1.position.row == r
  {
    ShiftOrdinary(toks, st);
    FinishLineEffect(st.grid.value, st.position);
    s1 := CloseRow(toks, NextSymbol(toks, st), r - 1);
  }

  /** A line of runs that cover row `r`, read from the start of the row:
      the row is drawn and the cursor moves to the start of the next one. */
  lemma {:induction false} LineDrawn(toks: seq<Token>, st: PState, k: nat, cells: seq<seq<bool>>, height: nat, width: nat, r: nat, ps: seq<Piece>, s: PState, k2: nat)
    requires WellShaped(cells, height, width) && r < height && AllRuns(ps) && Covers(cells[r], 0, ps)
    requires RowsDrawn(st, cells, height, width, r) && RunsRead(toks, st, k, ps, s) && k2 == k + |FrontTokens(ps)|
    ensures RowsDrawn(s, cells, height, width, r + 1) && Reading(toks, s, k2)
  {
    RowsDrawnIff(st, cells, height, width, r);
    RowDrawn(toks, st, k, cells, height, width, r, ps, s);
    RowsDrawnIff(s, cells, height, width, r + 1);
  }

  /** What the loop of rows leaves: the whole board is drawn, the parser
      reads the `!` at index `j`, and the last line started in the last
      row. */
  predicate RowsRead(toks: seq<Token>, j: nat, cells: seq<seq<bool>>, height: nat, width: nat, res: (PState, nat))
    requires WellShaped(cells, height, width)
  {
    res.1 + 1 == height && Reading(toks, res.0, j) && RowsDrawn(res.0, cells, height, width, height)
  }

  /** The loop of rows at the `!`: it stops, and the board is drawn. */
  lemma {:induction false} RowsDone(toks: seq<Token>, st: PState, k: nat, cells: seq<seq<bool>>, height: nat, width: nat)
    requires WellShaped(cells, height, width) && 0 < height
    requires RowsDrawn(st, cells, height, width, height) && Reading(toks, st, k)
    requires toks[k].kind == ExclamationMark
    ensures RowsRead(toks, k, cells, height, width, Rows(toks, st, height - 1))
  {
  }

  /** At a `$`, the loop of rows closes the row, reads a line and goes on
      from the row the cursor then stands in. */
  lemma {:induction false} RowsUnfold(toks: seq<Token>, st: PState, row: nat, s1: PState, s: PState, next: nat)
    requires st.next <= |toks| && Drawing(st) && st.symbol == Dollar
    requires s1 == CloseRow(toks, NextSymbol(toks, st), row) && s == LinePattern(toks, s1)
    requires s1.position.row == next
    ensures Rows(toks, st, row) == Rows(toks, s, next)
  {
  }

  /** One turn of the loop of rows: a `$` and the runs `ps` of row `r`
      draw the row, and the loop goes on from the next row. */
  lemma {:induction false} RowTurn(toks: seq<Token>, st: PState, k: nat, cells: seq<seq<bool>>, height: nat, width: nat, ps: seq<Piece>, r: nat, k2: nat)
      returns (s: PState)
    requires WellShaped(cells, height, width) && 0 < r < height
    requires AllRuns(ps) && ps != [] && Covers(cells[r], 0, ps)
    requires RowsDrawn(st, cells, height, width, r) && Reading(toks, st, k) && toks[k].kind == Dollar
    requires RunsAt(toks, k + 1, ps) && k2 == k + 1 + |FrontTokens(ps)|
    ensures RowsDrawn(s, cells, height, width, r + 1) && Reading(toks, s, k2)
    ensures Rows(toks, st, r - 1) == Rows(toks, s, r)
  {
    RunsAtStart(toks, k + 1, ps);
    var s1 := DollarStep(toks, st, k, cells, height, width, r);
    LineRead(toks, s1, k + 1, ps);
    s := LinePattern(toks, s1);
    LineDrawn(toks, s1, k + 1, cells, height, width, r, ps, s, k2);
    RowsUnfold(toks, st, r - 1, s1, s, r);
  }

  /** The tokens of the rows of `cells` from row `r` on, each after a
      `$`, then the final `!`. */
  function RowsTokens(cells: seq<seq<bool>>, r: nat): seq<Token>
    requires r <= |cells|
    decreases |cells| - r
  {
    if r == |cells| then [Token(ExclamationMark, "!")]
    else [Token(Dollar, "$")] + FrontTokens(Closed(cells[r])) + RowsTokens(cells, r + 1)
  }

  /** The tokens of the rows from `r` on start with a `$` or the `!`. */
  lemma RowsTokensStart(cells: seq<seq<bool>>, r: nat)
    requires r <= |cells|
    ensures RowsTokens(cells, r) != [] && RowsTokens(cells, r)[0].kind in {Dollar, ExclamationMark}
  {
  }

  /** The run pieces of a row of at least one cell: runs, at least one,
      standing for the whole row. */
  lemma ClosedRuns(row: seq<bool>)
    requires row != []
    ensures AllRuns(Closed(row)) && Closed(row) != [] && Covers(row, 0, Closed(row))
  {
    ClosedCovers(row);
    ClosedExpands(row);
  }

  /** The pieces `$`, a row, and the rest, read as tokens. */
  lemma {:induction false} FromRowTokens(cells: seq<seq<bool>>, r: nat)
    requires r <= |cells|
    ensures OutputLexing.PiecesTokens(FromRow(cells, r) + [Chr('!')]) == RowsTokens(cells, r)
    decreases |cells| - r
  {
    if r == |cells| {
      assert FromRow(cells, r) + [Chr('!')] == [Chr('!')];
      SinglePiece(Chr('!'));
    } else {
      var c, rest := Closed(cells[r]), FromRow(cells, r + 1) + [Chr('!')];
      Associate([Chr('$')] + c, FromRow(cells, r + 1), [Chr('!')]);
      ClosedCovers(cells[r]);
      DollarRowTokens(c, rest);
      FromRowTokens(cells, r + 1);
    }
  }

  /** The piece `$` is read as the one token `$`. */
  lemma DollarPiece()
    ensures OutputLexing.PieceTokens(Chr('$')) == [Token(Dollar, "$")]
  {
    assert OutputLexing.IsSingle('$') && OutputLexing.SingleToken('$') == Token(Punctuation('$'), "$");
  }

  /** A `$`, the runs `c`, then the pieces `rest`, read as tokens. */
  lemma DollarRowTokens(c: seq<Piece>, rest: seq<Piece>)
    requires AllRuns(c)
    ensures OutputLexing.PiecesTokens([Chr('$')] + c + rest) ==
      [Token(Dollar, "$")] + FrontTokens(c) + OutputLexing.PiecesTokens(rest)
  {
    var d, a, b := [Token(Dollar, "$")], FrontTokens(c), OutputLexing.PiecesTokens(rest);
    var cr := c + rest;
    Associate([Chr('$')], c, rest);
    assert [Chr('$')] + c + rest == [Chr('$')] + cr;
    OutputLexing.PiecesTokensAppend([Chr('$')], cr);
    SinglePiece(Chr('$'));
    DollarPiece();
    OutputLexing.PiecesTokensAppend(c, rest);
    FrontTokensAre(c);
    assert OutputLexing.PiecesTokens(cr) == a + b;
    Associate(d, a, b);
  }

  /** The body read as tokens: the runs of the first row, then every
      other row after its `$`, then `!`. */
  lemma BodyTokens(cells: seq<seq<bool>>, height: nat, width: nat)
    requires WellShaped(cells, height, width) && height > 0 && width > 0
    ensures OutputLexing.PiecesTokens(BodyPieces(cells, height, width)) ==
      FrontTokens(Closed(cells[0])) + RowsTokens(cells, 1)
  {
    BodyPiecesByRows(cells, height, width);
    var c := Closed(cells[0]);
    Associate(c, FromRow(cells, 1), [Chr('!')]);
    OutputLexing.PiecesTokensAppend(c, FromRow(cells, 1) + [Chr('!')]);
    ClosedCovers(cells[0]);
    FrontTokensAre(c);
    FromRowTokens(cells, 1);
  }

  /** Tokens that begin with those of the runs `ps` and go on with `rest`,
      which starts with a `$` or `!`, hold the runs from there. */
  lemma {:induction false} RunsAtOf(toks: seq<Token>, k: nat, ps: seq<Piece>, rest: seq<Token>)
    requires AllRuns(ps) && k <= |toks| && toks[k..] == FrontTokens(ps) + rest
    requires rest != [] && rest[0].kind in {Dollar, ExclamationMark}
    ensures RunsAt(toks, k, ps) && toks[k + |FrontTokens(ps)|..] == rest
    decreases |ps|
  {
    if ps == [] {
      assert toks[k..] == rest;
      assert toks[k] == rest[0];
    } else {
      var t, more := RunTokens(ps[0]), FrontTokens(ps[1..]);
      assert FrontTokens(ps) == t + more;
      Associate(t, more, rest);
      SuffixSplit(toks, k, t, more + rest);
      RestRuns(ps);
      RunsAtOf(toks, k + |t|, ps[1..], rest);
      assert k + |FrontTokens(ps)| == (k + |t|) + |more|;
    }
  }

  /** Tokens from `k` on that are `a + b`: `a` up to `k + |a|`, then `b`. */
  lemma SuffixSplit(toks: seq<Token>, k: nat, a: seq<Token>, b: seq<Token>)
    requires k <= |toks| && toks[k..] == a + b
    ensures k + |a| <= |toks| && toks[k..k + |a|] == a && toks[k + |a|..] == b
  {
    assert toks[k..k + |a|] == (a + b)[..|a|];
    assert toks[k + |a|..] == (a + b)[|a|..];
  }

  /** The runs after the first are runs. */
  lemma RestRuns(ps: seq<Piece>)
    requires AllRuns(ps) && ps != []
    ensures AllRuns(ps[1..])
  {
    forall i | 0 <= i < |ps[1..]|
      ensures RunPiece(ps[1..][i])
    {
      assert ps[1..][i] == ps[i + 1];
    }
  }

  /** The loop of rows of `pattern_section()`, from the `$` before row
      `r` (at index `k`), on a board drawn up to that row: each `$` finds
      the cursor at the start of its row, and each line draws its row. */
  lemma {:induction false} RowsParse(toks: seq<Token>, st: PState, k: nat, cells: seq<seq<bool>>, height: nat, width: nat, r: nat)
    requires WellShaped(cells, height, width) && width > 0 && 0 < r <= height
    requires k <= |toks| && toks[k..] == RowsTokens(cells, r)
    requires RowsDrawn(st, cells, height, width, r) && Reading(toks, st, k)
    ensures RowsRead(toks, |toks| - 1, cells, height, width, Rows(toks, st, r - 1))
    decreases height - r
  {
    if r == height {
      FirstOfSuffix(toks, k, RowsTokens(cells, r));
      RowsDone(toks, st, k, cells, height, width);
    } else {
      var ps := Closed(cells[r]);
      ClosedRuns(cells[r]);
      var k2 := RowLayout(toks, k, cells, r);
      var s := RowTurn(toks, st, k, cells, height, width, ps, r, k2);
      RowsParse(toks, s, k2, cells, height, width, r + 1);
    }
  }

  /** The first token from `k` on. */
  lemma FirstOfSuffix(toks: seq<Token>, k: nat, ts: seq<Token>)
    requires k <= |toks| && toks[k..] == ts && ts != []
    ensures k < |toks| && toks[k] == ts[0]
  {
    assert toks[k] == toks[k..][0];
  }

  /** Where the tokens of row `r` stand, when those of the rows from `r`
      on start at `k`: a `$` at `k`, the runs of the row after it, and the
      rows from `r + 1` on from `k2`. */
  lemma RowLayout(toks: seq<Token>, k: nat, cells: seq<seq<bool>>, r: nat) returns (k2: nat)
    requires r < |cells| && cells[r] != [] && k <= |toks| && toks[k..] == RowsTokens(cells, r)
    ensures k < |toks| && toks[k].kind == Dollar && RunsAt(toks, k + 1, Closed(cells[r]))
    ensures k2 == k + 1 + |FrontTokens(Closed(cells[r]))| && k2 <= |toks| && toks[k2..] == RowsTokens(cells, r + 1)
  {
    var ps, rest := Closed(cells[r]), RowsTokens(cells, r + 1);
    ClosedRuns(cells[r]);
    RowsTokensStart(cells, r + 1);
    Associate([Token(Dollar, "$")], FrontTokens(ps), rest);
    SuffixSplit(toks, k, [Token(Dollar, "$")], FrontTokens(ps) + rest);
    FirstOfSuffix(toks, k, RowsTokens(cells, r));
    RunsAtOf(toks, k + 1, ps, rest);
    k2 := k + 1 + |FrontTokens(ps)|;
  }

  /** The board once every row is drawn is `cells`. */
  lemma AllRowsDrawn(cells: seq<seq<bool>>, height: nat, width: nat)
    requires WellShaped(cells, height, width)
    ensures FirstRows(cells, height, width, height) == cells
  {
    SameCells(FirstRows(cells, height, width, height), cells, height, width);
  }

  /** No row drawn yet is a dead board. */
  lemma NoRowDrawn(cells: seq<seq<bool>>, height: nat, width: nat)
    requires WellShaped(cells, height, width)
    ensures FirstRows(cells, height, width, 0) == DeadCells(height, width)
  {
    SameCells(FirstRows(cells, height, width, 0), DeadCells(height, width), height, width);
  }

  /** The end of `pattern_section()` on a drawn board, reading the `!`:
      the row check passes, `finnish_line()` has nothing to do, and the
      `!` is read without a report. */
  lemma PatternEnd(toks: seq<Token>, res: (PState, nat), cells: seq<seq<bool>>, height: nat, width: nat)
    requires WellShaped(cells, height, width) && |toks| > 0 && res.0.symbol == ExclamationMark
    requires RowsRead(toks, |toks| - 1, cells, height, width, res)
    ensures var r := Expect(toks, CloseRow(toks, res.0, res.1), ExclamationMark).1;
      r.errors == 0 && r.log == [] && r.grid == Some(Grid(height, width, cells))
  {
    var s := res.0;
    assert RowOk(s.position, res.1);
    assert CloseRow(toks, s, res.1) == s;
    AllRowsDrawn(cells, height, width);
  }

  /** The last of the tokens of the rows is the `!`. */
  lemma {:induction false} RowsTokensLast(cells: seq<seq<bool>>, r: nat)
    requires r <= |cells|
    ensures RowsTokens(cells, r)[|RowsTokens(cells, r)| - 1] == Token(ExclamationMark, "!")
    decreases |cells| - r
  {
    if r < |cells| {
      var a, b := [Token(Dollar, "$")] + FrontTokens(Closed(cells[r])), RowsTokens(cells, r + 1);
      assert RowsTokens(cells, r) == a + b;
      RowsTokensLast(cells, r + 1);
      LastOfAppend(a, b);
    }
  }

  /** The last element of `a + b`, for a non-empty `b`, is that of `b`. */
  lemma LastOfAppend<T>(a: seq<T>, b: seq<T>)
    requires b != []
    ensures (a + b)[|a + b| - 1] == b[|b| - 1]
  {
  }

  /** Tokens from `k` on that end with `rest` end with its last token. */
  lemma LastOfSuffix(toks: seq<Token>, k: nat, a: seq<Token>, rest: seq<Token>)
    requires k <= |toks| && toks[k..] == a + rest && rest != []
    ensures toks[|toks| - 1] == rest[|rest| - 1]
  {
    assert toks[|toks| - 1] == toks[k..][|toks| - 1 - k];
  }

  /** The lines of the body of a written board, from the dead board the
      header leaves: the first line draws the first row, and the loop of
      rows draws every other row after its `$`, stopping at the `!`. */
  lemma BodyRowsParse(toks: seq<Token>, st: PState, k: nat, cells: seq<seq<bool>>, height: nat, width: nat)
    requires WellShaped(cells, height, width) && height > 0 && width > 0
    requires k <= |toks| && toks[k..] == FrontTokens(Closed(cells[0])) + RowsTokens(cells, 1)
    requires RowsDrawn(st, cells, height, width, 0) && Reading(toks, st, k)
    ensures Drawing(st) && RowsRead(toks, |toks| - 1, cells, height, width, Rows(toks, LinePattern(toks, st), 0))
  {
    var k2 := FirstLine(toks, st, k, cells, height, width);
    RowsParse(toks, LinePattern(toks, st), k2, cells, height, width, 1);
  }

  /** The first line of the body, on the dead board: it draws the first
      row, and the rows from the second on follow at `k2`. */
  lemma FirstLine(toks: seq<Token>, st: PState, k: nat, cells: seq<seq<bool>>, height: nat, width: nat) returns (k2: nat)
    requires WellShaped(cells, height, width) && height > 0 && width > 0
    requires k <= |toks| && toks[k..] == FrontTokens(Closed(cells[0])) + RowsTokens(cells, 1)
    requires RowsDrawn(st, cells, height, width, 0) && Reading(toks, st, k)
    ensures Drawing(st) && k2 <= |toks| && toks[k2..] == RowsTokens(cells, 1)
    ensures RowsDrawn(LinePattern(toks, st), cells, height, width, 1) && Reading(toks, LinePattern(toks, st), k2)
  {
    var ps, rest := Closed(cells[0]), RowsTokens(cells, 1);
    ClosedRuns(cells[0]);
    RowsTokensStart(cells, 1);
    RunsAtOf(toks, k, ps, rest);
    LineRead(toks, st, k, ps);
    k2 := k + |FrontTokens(ps)|;
    LineDrawn(toks, st, k, cells, height, width, 0, ps, LinePattern(toks, st), k2);
  }

  /** `pattern_section()` on the body of a written board, from the dead
      board the header leaves: every row is drawn, and the `!` ends the
      section without a report. */
  lemma PatternParse(toks: seq<Token>, st: PState, k: nat, cells: seq<seq<bool>>, height: nat, width: nat)
    requires WellShaped(cells, height, width) && height > 0 && width > 0
    requires k <= |toks| && toks[k..] == FrontTokens(Closed(cells[0])) + RowsTokens(cells, 1)
    requires RowsDrawn(st, cells, height, width, 0) && Reading(toks, st, k)
    ensures var r := PatternSection(toks, st);
      r.errors == 0 && r.log == [] && r.grid == Some(Grid(height, width, cells))
  {
    BodyRowsParse(toks, st, k, cells, height, width);
    RowsTokensLast(cells, 1);
    LastOfSuffix(toks, k, FrontTokens(Closed(cells[0])), RowsTokens(cells, 1));
    var res := Rows(toks, LinePattern(toks, st), st.position.row);
    PatternEnd(toks, res, cells, height, width);
  }

  /** The tokens of the header the encoder writes, one by one, and the
      first token of the body after them. */
  predicate HeaderAt(toks: seq<Token>, wd: seq<char>, hd: seq<char>, bd: seq<char>, sd: seq<char>) {
    |toks| > 16 && CommentAt(toks) && SizeAt(toks, wd, hd) && RuleAt(toks, bd, sd)
  }

  /** The comment line, then `x`. */
  predicate CommentAt(toks: seq<Token>) {
    |toks| > 16 && toks[0] == Token(Comment, "# Auto generated map file") && toks[1] == Token(Identifier, "x")
  }

  /** `= <wd>, y = <hd>,` after the `x`. */
  predicate SizeAt(toks: seq<Token>, wd: seq<char>, hd: seq<char>) {
    |toks| > 16 &&
    toks[2] == Token(Equals, "=") && toks[3] == Token(Number, wd) && toks[4] == Token(Comma, ",") &&
    toks[5] == Token(Identifier, "y") && toks[6] == Token(Equals, "=") &&
    toks[7] == Token(Number, hd) && toks[8] == Token(Comma, ",")
  }

  /** `rule = B<bd>/S<sd>`, then a token that starts a run. */
  predicate RuleAt(toks: seq<Token>, bd: seq<char>, sd: seq<char>) {
    |toks| > 16 &&
    toks[9] == Token(Identifier, "rule") && toks[10] == Token(Equals, "=") &&
    toks[11] == Token(B, "B") && toks[12] == Token(Number, bd) &&
    toks[13] == Token(Slash, "/") && toks[14] == Token(S, "S") && toks[15] == Token(Number, sd) &&
    toks[16].kind in {Number, B, O}
  }

  /** Tokens that start with the header tokens hold them one by one. */
  lemma HeaderTokensAt(toks: seq<Token>, wd: seq<char>, hd: seq<char>, bd: seq<char>, sd: seq<char>)
    requires |toks| > 16 && toks[..16] == OutputLexing.HeaderTokens(wd, hd, bd, sd) && toks[16].kind in {Number, B, O}
    ensures HeaderAt(toks, wd, hd, bd, sd)
  {
    var h := OutputLexing.HeaderTokens(wd, hd, bd, sd);
    PrefixAt(toks, h);
    assert CommentAt(toks);
    assert SizeAt(toks, wd, hd);
    assert RuleAt(toks, bd, sd);
  }

  /** Tokens that start with `h` hold its tokens at the same indices. */
  lemma PrefixAt(toks: seq<Token>, h: seq<Token>)
    requires |h| <= |toks| && toks[..|h|] == h
    ensures forall i :: 0 <= i < |h| ==> toks[i] == h[i]
  {
    forall i | 0 <= i < |h|
      ensures toks[i] == h[i]
    {
      assert toks[..|h|][i] == toks[i];
    }
  }

  /** The parser after the comment line the encoder writes: the comment
      is skipped and `x` is the current symbol. */
  lemma CommentSkipped(toks: seq<Token>, wd: seq<char>, hd: seq<char>, bd: seq<char>, sd: seq<char>)
    requires CommentAt(toks)
    ensures Comments(toks, NextSymbol(toks, InitialState())) ==
      PState(2, Identifier, "# Auto generated map file", "x", map[], {}, {}, 0, [], None, Begin())
  {
    ShiftOrdinary(toks, InitialState());
    var s0 := NextSymbol(toks, InitialState());
    ShiftOrdinary(toks, s0);
    var s1 := NextSymbol(toks, s0);
    assert Comments(toks, s1) == s1;
  }

  /** The assignments `x = <wd>, y = <hd>` the encoder writes, then the
      comma before the rule. */
  lemma SizeStatements(toks: seq<Token>, wd: seq<char>, hd: seq<char>, bd: seq<char>, sd: seq<char>)
    requires SizeAt(toks, wd, hd)
    ensures var s1 := PState(2, Identifier, "# Auto generated map file", "x", map[], {}, {}, 0, [], None, Begin());
      Statement(toks, s1) ==
        PState(5, Comma, wd, ",", map["x" := Stoi(wd)], {}, {}, 0, [], None, Begin()) &&
      Statement(toks, NextSymbol(toks, Statement(toks, s1))) ==
        PState(9, Comma, hd, ",", map["x" := Stoi(wd), "y" := Stoi(hd)], {}, {}, 0, [], None, Begin())
  {
    var s1 := PState(2, Identifier, "# Auto generated map file", "x", map[], {}, {}, 0, [], None, Begin());
    NumberStatement(toks, s1, "x", wd);
    var sx := Statement(toks, s1);
    ShiftOrdinary(toks, sx);
    var s2 := NextSymbol(toks, sx);
    NumberStatement(toks, s2, "y", hd);
  }

  /** The rule `rule = B<bd>/S<sd>` the encoder writes, up to the first
      token of the body. */
  lemma RuleRead(toks: seq<Token>, wd: seq<char>, hd: seq<char>, bd: seq<char>, sd: seq<char>, s: PState)
    requires RuleAt(toks, bd, sd) && s.next == 9 && s.symbol == Comma
    ensures Statement(toks, NextSymbol(toks, s)) ==
      s.(next := 17, symbol := toks[16].kind, currentText := sd, cachedText := toks[16].text,
         born := s.born + DigitSet(bd), survives := s.survives + DigitSet(sd))
  {
    ShiftOrdinary(toks, s);
    RuleStatement(toks, NextSymbol(toks, s), bd, sd);
  }

  /** The digits of a non-empty number make a non-empty set. */
  lemma DigitsSomewhere(d: seq<char>)
    requires d != []
    ensures DigitSet(d) != {}
  {
    assert d[0] as int - '0' as int in DigitSet(d);
  }

  /** The statements of the header the encoder writes: `x` and `y` are
      bound to the numbers written, the rule digits are read, and the loop
      stops at the first token of the body. */
  lemma StatementsRead(toks: seq<Token>, wd: seq<char>, hd: seq<char>, bd: seq<char>, sd: seq<char>)
    requires SizeAt(toks, wd, hd) && RuleAt(toks, bd, sd)
    ensures var s1 := PState(2, Identifier, "# Auto generated map file", "x", map[], {}, {}, 0, [], None, Begin());
      Statements(toks, Statement(toks, s1)) ==
        PState(17, toks[16].kind, sd, toks[16].text, map["x" := Stoi(wd), "y" := Stoi(hd)],
               {} + DigitSet(bd), {} + DigitSet(sd), 0, [], None, Begin())
  {
    SizeStatements(toks, wd, hd, bd, sd);
    var values := map["x" := Stoi(wd), "y" := Stoi(hd)];
    var sy := PState(9, Comma, hd, ",", values, {}, {}, 0, [], None, Begin());
    RuleRead(toks, wd, hd, bd, sd, sy);
    var sr := PState(17, toks[16].kind, sd, toks[16].text, values, {} + DigitSet(bd), {} + DigitSet(sd), 0, [], None, Begin());
    assert Statements(toks, sy) == Statements(toks, sr);
    assert Statements(toks, sr) == sr;
  }

  /** The defaults and checks at the end of the header, with `x` and `y`
      bound to positive numbers and both rule sets non-empty: nothing is
      reported, and the dead board of that size is set up with the cursor
      at its first cell. */
  lemma ChecksPass(toks: seq<Token>, st: PState, width: nat, height: nat)
    requires st.next <= |toks| && st.values == map["x" := width, "y" := height] && width > 0 && height > 0
    requires st.born != {} && st.survives != {}
    ensures HeaderChecks(toks, st) == st.(grid := Some(Grid(height, width, DeadCells(height, width))), position := Begin())
  {
    assert HeaderDefaults(st) == (width, height, st);
  }

  /** The header the encoder writes, read by `comment_section()` and
      `header_section()`: the size comes back from `x` and `y`, the rule
      sets are not empty, so neither warnings nor errors are reported, and
      the dead board of that size is set up with the cursor at its first
      cell; the parser reads the first token of the body. */
  lemma HeaderRead(toks: seq<Token>, wd: seq<char>, hd: seq<char>, bd: seq<char>, sd: seq<char>, width: nat, height: nat)
    requires HeaderAt(toks, wd, hd, bd, sd)
    requires Stoi(wd) == width > 0 && Stoi(hd) == height > 0 && bd != [] && sd != []
    ensures var st := HeaderSection(toks, Comments(toks, NextSymbol(toks, InitialState())));
      Reading(toks, st, 16) && st.errors == 0 && st.log == [] &&
      st.grid == Some(Grid(height, width, DeadCells(height, width))) && st.position == Begin()
  {
    CommentSkipped(toks, wd, hd, bd, sd);
    StatementsRead(toks, wd, hd, bd, sd);
    DigitsSomewhere(bd);
    DigitsSomewhere(sd);
    var sr := PState(17, toks[16].kind, sd, toks[16].text, map["x" := width, "y" := height],
                     {} + DigitSet(bd), {} + DigitSet(sd), 0, [], None, Begin());
    ChecksPass(toks, sr, width, height);
  }

  /** The tokens of the text the encoder writes: its header, then the
      runs of the first row, then every other row. */
  lemma EncodedLayout(cells: seq<seq<bool>>, height: nat, width: nat, born: set<int>, survives: set<int>)
    requires WellShaped(cells, height, width) && height > 0 && width > 0
    requires born != {} && survives != {}
    requires (forall x :: x in born ==> x >= 0) && (forall x :: x in survives ==> x >= 0)
    ensures var toks := Tokenize(EncodeText(cells, height, width, born, survives), Stream(0, false));
      HeaderAt(toks, IntToDecimal(width), IntToDecimal(height), RuleText(born), RuleText(survives)) &&
      toks[16..] == FrontTokens(Closed(cells[0])) + RowsTokens(cells, 1)
  {
    var input := EncodeText(cells, height, width, born, survives);
    var wd, hd, bd, sd := IntToDecimal(width), IntToDecimal(height), RuleText(born), RuleText(survives);
    OutputLexing.EncodedTokens(cells, height, width, born, survives);
    BodyTokens(cells, height, width);
    var toks := Tokenize(input, Stream(0, false));
    var head := OutputLexing.HeaderTokens(wd, hd, bd, sd);
    var ps, rest := Closed(cells[0]), RowsTokens(cells, 1);
    assert toks == head + (FrontTokens(ps) + rest);
    SuffixSplit(toks, 0, head, FrontTokens(ps) + rest);
    ClosedRuns(cells[0]);
    RowsTokensStart(cells, 1);
    RunsAtOf(toks, 16, ps, rest);
    RunsAtStart(toks, 16, ps);
    HeaderTokensAt(toks, wd, hd, bd, sd);
  }

  /** Tokens laid out as the encoder lays them out parse to the board
      they describe, with no error or warning. */
  lemma ParseLaidOut(toks: seq<Token>, cells: seq<seq<bool>>, height: nat, width: nat,
                     wd: seq<char>, hd: seq<char>, bd: seq<char>, sd: seq<char>)
    requires WellShaped(cells, height, width) && height > 0 && width > 0
    requires HeaderAt(toks, wd, hd, bd, sd)
    requires Stoi(wd) == width && Stoi(hd) == height && bd != [] && sd != []
    requires toks[16..] == FrontTokens(Closed(cells[0])) + RowsTokens(cells, 1)
    ensures ParseTokens(toks) == (Some(Grid(height, width, cells)), [])
  {
    HeaderRead(toks, wd, hd, bd, sd, width, height);
    var st := HeaderSection(toks, Comments(toks, NextSymbol(toks, InitialState())));
    NoRowDrawn(cells, height, width);
    PatternParse(toks, st, 16, cells, height, width);
  }

  /** The round trip: the text `dump_to_file` writes for a board, read
      back by `parse_stream()`, gives a board of the same size with the
      same cells, and not a single error or warning. Written rules must
      not be empty (an empty rule set makes the written `B/S` unreadable)
      and hold no negative numbers (whose `-` the lexer reads as a token of
      its own). */
  lemma EncodeThenParse(cells: seq<seq<bool>>, height: nat, width: nat, born: set<int>, survives: set<int>)
    requires WellShaped(cells, height, width) && height > 0 && width > 0
    requires born != {} && survives != {}
    requires (forall x :: x in born ==> x >= 0) && (forall x :: x in survives ==> x >= 0)
    ensures ParseStream(EncodeText(cells, height, width, born, survives)) == (Some(Grid(height, width, cells)), [])
  {
    var toks := Tokenize(EncodeText(cells, height, width, born, survives), Stream(0, false));
    EncodedLayout(cells, height, width, born, survives);
    StoiDecimal(width);
    StoiDecimal(height);
    OutputLexing.RuleDigits(born);
    OutputLexing.RuleDigits(survives);
    ParseLaidOut(toks, cells, height, width, IntToDecimal(width), IntToDecimal(height), RuleText(born), RuleText(survives));
  }
}
