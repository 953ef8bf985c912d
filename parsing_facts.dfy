// Properties of the parser model (parsing.dfy) that relate several of its
// steps: how expressions group, what an unknown variable does, the header
// defaults, the body checks, and what an empty file yields.

module ParsingFacts {
  import opened Wrappers
  import opened Text
  import opened Tokens
  import opened Lexing
  import opened Cursor
  import opened Grids
  import opened Parsing

  /** The number token for `n`. */
  function Num(n: nat): Token {
    Token(Number, NatToDecimal(n))
  }

  /** `next_symbol()` on an ordinary token: it becomes current, and the
      text of the previous one becomes `m_current_text`. */
  lemma ShiftOrdinary(toks: seq<Token>, st: PState)
    requires st.next < |toks| && !IsErrorKind(toks[st.next].kind)
    ensures NextSymbol(toks, st) == st.(next := st.next + 1, symbol := toks[st.next].kind,
                                        currentText := st.cachedText, cachedText := toks[st.next].text)
  {
  }

  /** The symbol `next_symbol()` makes current: the next token's kind, or
      `eof` past the end. */
  lemma NextKind(toks: seq<Token>, st: PState)
    requires st.next <= |toks|
    ensures NextSymbol(toks, st).symbol == if st.next < |toks| then toks[st.next].kind else Eof
  {
  }

  /** `next_symbol()` past the last token: `eof` from then on. */
  lemma ShiftEnd(toks: seq<Token>, st: PState)
    requires st.next == |toks|
    ensures NextSymbol(toks, st) == st.(symbol := Eof, currentText := st.cachedText, cachedText := "")
  {
  }

  /** A number token followed by something other than an operator is the
      whole expression. */
  lemma LoneNumber(toks: seq<Token>, st: PState)
    requires st.next <= |toks| && st.symbol == Number
    requires !IsOperator(NextSymbol(toks, st).symbol)
    ensures MathExpression(toks, st) == (Stoi(st.cachedText), NextSymbol(toks, st))
  {
  }

  /** A number followed by an operator: the operator applied to the number
      and the value of the whole expression after the operator. */
  lemma NumberThenOperator(toks: seq<Token>, st: PState)
    requires st.next <= |toks| && st.symbol == Number
    requires IsOperator(NextSymbol(toks, st).symbol)
    ensures var s1 := NextSymbol(toks, st);
      var rest := MathExpression(toks, NextSymbol(toks, s1));
      MathExpression(toks, st) == Apply(s1.symbol, Stoi(st.cachedText), rest.0, rest.1)
  {
  }

  /** The value `stoi` reads back from `std::to_string(n)`. */
  lemma StoiDecimal(n: nat)
    ensures Stoi(NatToDecimal(n)) == n
  {
  }

  /** The value of `a op b` does not depend on the parser state. */
  lemma ApplyValue(op: TokenKind, a: int, b: int, st: PState, st': PState)
    requires IsOperator(op)
    ensures Apply(op, a, b, st).0 == Apply(op, a, b, st').0
  {
  }

  /** `b op c` followed by anything but an operator. */
  lemma LastOperation(toks: seq<Token>, st: PState, b: nat, op: TokenKind, c: nat)
    requires IsOperator(op)
    requires st.symbol == Number && st.cachedText == NatToDecimal(b)
    requires st.next + 2 <= |toks|
    requires toks[st.next] == Token(op, "") && toks[st.next + 1] == Num(c)
    requires st.next + 2 == |toks| || !IsOperator(toks[st.next + 2].kind)
    ensures MathExpression(toks, st).0 == Apply(op, b, c, st).0
  {
    ShiftOrdinary(toks, st);
    var s1 := NextSymbol(toks, st);
    ShiftOrdinary(toks, s1);
    var s2 := NextSymbol(toks, s1);
    NextKind(toks, s2);
    StoiDecimal(b);
    StoiDecimal(c);
    LoneNumber(toks, s2);
    NumberThenOperator(toks, st);
    ApplyValue(op, b, c, st, NextSymbol(toks, s2));
  }

  /** `a op1 b op2 c` is `a op1 (b op2 c)`, for every choice of the two
      operators: all four group to the right with equal precedence. */
  lemma RightAssociative(toks: seq<Token>, st: PState, a: nat, op1: TokenKind, b: nat, op2: TokenKind, c: nat)
    requires IsOperator(op1) && IsOperator(op2)
    requires st.symbol == Number && st.cachedText == NatToDecimal(a)
    requires st.next + 4 <= |toks|
    requires toks[st.next] == Token(op1, "") && toks[st.next + 1] == Num(b)
    requires toks[st.next + 2] == Token(op2, "") && toks[st.next + 3] == Num(c)
    requires st.next + 4 == |toks| || !IsOperator(toks[st.next + 4].kind)
    ensures MathExpression(toks, st).0 == Apply(op1, a, Apply(op2, b, c, st).0, st).0
  {
    ShiftOrdinary(toks, st);
    var s1 := NextSymbol(toks, st);
    ShiftOrdinary(toks, s1);
    var s2 := NextSymbol(toks, s1);
    LastOperation(toks, s2, b, op2, c);
    StoiDecimal(a);
    NumberThenOperator(toks, st);
    var bc := MathExpression(toks, s2);
    ApplyValue(op2, b, c, st, s2);
    ApplyValue(op1, a, bc.0, st, bc.1);
  }

  /** `10-3-2` is 9, not 5. */
  lemma TenMinusThreeMinusTwo(toks: seq<Token>, st: PState)
    requires st.symbol == Number && st.cachedText == NatToDecimal(10)
    requires st.next + 4 == |toks|
    requires toks[st.next..] == [Token(Minus, ""), Num(3), Token(Minus, ""), Num(2)]
    ensures MathExpression(toks, st).0 == 9
  {
    assert toks[st.next] == Token(Minus, "") && toks[st.next + 1] == Num(3);
    assert toks[st.next + 2] == Token(Minus, "") && toks[st.next + 3] == Num(2);
    RightAssociative(toks, st, 10, Minus, 3, Minus, 2);
  }

  /** `2*3+4` is 14, not 10. */
  lemma TwoTimesThreePlusFour(toks: seq<Token>, st: PState)
    requires st.symbol == Number && st.cachedText == NatToDecimal(2)
    requires st.next + 4 == |toks|
    requires toks[st.next..] == [Token(Multiply, ""), Num(3), Token(Plus, ""), Num(4)]
    ensures MathExpression(toks, st).0 == 14
  {
    assert toks[st.next] == Token(Multiply, "") && toks[st.next + 1] == Num(3);
    assert toks[st.next + 2] == Token(Plus, "") && toks[st.next + 3] == Num(4);
    RightAssociative(toks, st, 2, Multiply, 3, Plus, 4);
  }

  /** An unknown variable is reported once, is worth 0 and is bound to 0. */
  lemma UnknownBoundToZero(st: PState)
    requires st.currentText !in st.values
    ensures Lookup(st).0 == 0
    ensures Lookup(st).1 == st.(errors := st.errors + 1, log := st.log + [Reported(Problem.UnknownVariable)],
                                values := st.values[st.currentText := 0])
  {
  }

  /** Looking the same name up again reports nothing and finds the same
      value. */
  lemma LookupAgain(st: PState)
    ensures Lookup(Lookup(st).1) == Lookup(st)
  {
  }

  /** The header defaults: `x` and `y` are 10 when unassigned, an empty
      born or survive set adds B3/S23, one warning per default, in the
      order x, y, rule; no error and nothing else changes. */
  lemma Defaults(st: PState)
    ensures var (x, y, r) := HeaderDefaults(st);
      var noRule := st.born == {} || st.survives == {};
      x == (if "x" in st.values then st.values["x"] else 10) &&
      y == (if "y" in st.values then st.values["y"] else 10) &&
      r.born == (if noRule then st.born + {3} else st.born) &&
      r.survives == (if noRule then st.survives + {2, 3} else st.survives) &&
      r.errors == st.errors &&
      r.log == st.log + (if "x" in st.values then [] else [Warned(XNotSet)])
                      + (if "y" in st.values then [] else [Warned(YNotSet)])
                      + (if noRule then [Warned(RuleNotSet)] else [])
  {
  }

  /** A count written as `%(...)` is always an error, and writes nothing. */
  lemma ExpressionCountIsError(toks: seq<Token>, st: PState)
    requires st.next <= |toks| && Drawing(st) && st.symbol == Percent
    ensures var r := Pattern(toks, st);
      r.errors > st.errors && r.grid == st.grid && r.position == st.position
  {
  }

  /** "line too long" is reported exactly when the cursor has left the row
      where the line started (other than to the start of the next row). */
  lemma RowCheck(toks: seq<Token>, st: PState, row: nat)
    requires st.next <= |toks| && Drawing(st)
    ensures CloseRow(toks, st, row).errors == st.errors + (if RowOk(st.position, row) then 0 else 1)
    ensures CloseRow(toks, st, row).grid == Some(FinishLine(st.grid.value, st.position).0)
    ensures CloseRow(toks, st, row).position == FinishLine(st.grid.value, st.position).1
  {
  }

  /** The board an empty file yields: 10 by 10, with the first cell alive. */
  function EmptyFileGrid(): Grid {
    Grid(10, 10, SetCell(DeadCells(10, 10), 10, 10, 0, 0, true))
  }

  /** The warnings an empty header gives. */
  const DefaultWarnings := [Warned(XNotSet), Warned(YNotSet), Warned(RuleNotSet)]

  /** An empty header: all three defaults, the 10 by 10 board, the cursor
      at its first cell. */
  lemma EmptyHeader()
    ensures HeaderSection([], InitialState()) ==
      InitialState().(log := DefaultWarnings, born := {3}, survives := {2, 3},
                      grid := Some(Grid(10, 10, DeadCells(10, 10))), position := Begin())
  {
    var st := InitialState();
    var (x, y, s) := HeaderDefaults(st);
    assert x == 10 && y == 10;
    assert s == st.(log := DefaultWarnings, born := {3}, survives := {2, 3});
  }

  /** A pattern section with no tokens left, from the first cell of a dead
      board: one live cell, then the rest of the row killed. */
  lemma EmptyPatternSection(st: PState, h: nat, w: nat)
    requires st.next == 0 && st.symbol == Eof && st.errors == 0 && h > 0 && w > 0
    requires st.grid == Some(Grid(h, w, DeadCells(h, w))) && st.position == Begin()
    ensures PatternSection([], st) ==
      st.(grid := Some(Grid(h, w, SetCell(DeadCells(h, w), h, w, 0, 0, true))), position := Position(1, 0))
  {
    var g1 := Grid(h, w, SetCell(DeadCells(h, w), h, w, 0, 0, true));
    var s3 := st.(grid := Some(g1), position := Next(Begin(), w));
    EmptyLine(st, h, w);
    assert Rows([], s3, 0) == (s3, 0);
    EmptyClose(s3, h, w);
    assert Expect([], s3.(position := Position(1, 0)), ExclamationMark).1 == s3.(position := Position(1, 0));
  }

  /** The one pattern at end of input: a single live cell at the cursor. */
  lemma EmptyLine(st: PState, h: nat, w: nat)
    requires st.next == 0 && st.symbol == Eof && st.errors == 0 && h > 0 && w > 0
    requires st.grid == Some(Grid(h, w, DeadCells(h, w))) && st.position == Begin()
    ensures LinePattern([], st) ==
      st.(grid := Some(Grid(h, w, SetCell(DeadCells(h, w), h, w, 0, 0, true))), position := Next(Begin(), w))
  {
    var g := Grid(h, w, DeadCells(h, w));
    var g1 := Grid(h, w, SetCell(DeadCells(h, w), h, w, 0, 0, true));
    assert Fill(g, Begin(), 1, true) == (g1, Next(Begin(), w));
    assert Pattern([], st) == st.(grid := Some(g1), position := Next(Begin(), w));
  }

  /** Closing the first row after its first cell: the rest of the row is
      killed, which changes no cell, and the cursor moves to the next row. */
  lemma EmptyClose(s3: PState, h: nat, w: nat)
    requires s3.next == 0 && s3.symbol == Eof && s3.errors == 0 && h > 0 && w > 0
    requires s3.grid == Some(Grid(h, w, SetCell(DeadCells(h, w), h, w, 0, 0, true)))
    requires s3.position == Next(Begin(), w)
    ensures CloseRow([], s3, 0) == s3.(position := Position(1, 0))
  {
    SecondCell(w);
    FirstRowClosed(h, w, s3.position);
  }

  /** The cursor after the first cell: the second cell of the first row,
      or the start of the second row when the board is one cell wide. */
  lemma SecondCell(w: nat)
    requires w > 0
    ensures Next(Begin(), w) == if w == 1 then Position(1, 0) else Position(0, 1)
  {
  }

  /** `finnish_line` after the first cell of a board whose only live cell
      is that one. */
  lemma FirstRowClosed(h: nat, w: nat, p1: Position)
    requires h > 0 && w > 0
    requires p1 == if w == 1 then Position(1, 0) else Position(0, 1)
    ensures var g1 := Grid(h, w, SetCell(DeadCells(h, w), h, w, 0, 0, true));
      FinishLine(g1, p1) == (g1, Position(1, 0))
  {
    var g1 := Grid(h, w, SetCell(DeadCells(h, w), h, w, 0, 0, true));
    if w > 1 {
      FirstRowRestDead(h, w);
    }
    KillingDeadCells(g1, p1);
  }

  /** Only the first cell of the board is alive. */
  lemma FirstRowRestDead(h: nat, w: nat)
    requires h > 0 && w > 0
    ensures var cells := SetCell(DeadCells(h, w), h, w, 0, 0, true);
      forall j :: 1 <= j < w ==> !cells[0][j]
  {
    var cells := SetCell(DeadCells(h, w), h, w, 0, 0, true);
    forall j | 1 <= j < w
      ensures !cells[0][j]
    {
      assert cells[0][j] == DeadCells(h, w)[0][j];
    }
  }

  /** `finnish_line` over cells that are already dead changes no cell. */
  lemma KillingDeadCells(g: Grid, p: Position)
    requires WellShaped(g.cells, g.height, g.width) && p.col < g.width && (p.col != 0 ==> p.row < g.height)
    requires forall j :: p.col <= j < g.width && p.col != 0 ==> !g.cells[p.row][j]
    ensures FinishLine(g, p).0 == g
    ensures FinishLine(g, p).1 == if p.col == 0 then p else Position(p.row + 1, 0)
  {
    FinishLineEffect(g, p);
    var g' := FinishLine(g, p).0;
    forall i, j | 0 <= i < g.height && 0 <= j < g.width
      ensures g'.cells[i][j] == g.cells[i][j]
    {
    }
    SameCells(g'.cells, g.cells, g.height, g.width);
  }

  /** An empty file is not an error: the defaults give a 10 by 10 board,
      the pattern at end of input still writes one live cell at the
      cursor, and the only diagnostics are the three default warnings. */
  lemma EmptyFile()
    ensures ParseStream("") == (Some(EmptyFileGrid()), DefaultWarnings)
  {
    var toks := Tokenize("", Stream(0, false));
    assert toks == [];
    var s0 := NextSymbol(toks, InitialState());
    assert s0 == InitialState();
    assert Comments(toks, s0) == s0;
    EmptyHeader();
    EmptyPatternSection(HeaderSection(toks, s0), 10, 10);
  }

  /** `n` reports of an unexpected token. */
  function Skips(n: nat): (r: seq<Diagnostic>)
    ensures |r| == n && forall i :: 0 <= i < n ==> r[i] == Reported(UnexpectedToken)
  {
    seq(n, _ => Reported(UnexpectedToken))
  }

  lemma SkipsMore(log: seq<Diagnostic>, n: nat)
    ensures log + [Reported(UnexpectedToken)] + Skips(n) == log + Skips(n + 1)
  {
    assert [Reported(UnexpectedToken)] + Skips(n) == Skips(n + 1);
  }

  /** The state after skipping the current symbol: the next token, an
      ordinary one, is current and one unexpected-token error is logged. */
  function SkipState(toks: seq<Token>, st: PState): PState
    requires st.next < |toks|
  {
    st.(next := st.next + 1, symbol := toks[st.next].kind, currentText := st.cachedText,
        cachedText := toks[st.next].text, errors := st.errors + 1,
        log := st.log + [Reported(UnexpectedToken)])
  }

  /** The state in which the `k` at `j` is current, after the current
      symbol and the tokens before `j` have been skipped. */
  function ArrivedAt(toks: seq<Token>, st: PState, k: TokenKind, j: nat): PState
    requires st.next <= j < |toks|
  {
    var d := j - st.next + 1;
    st.(next := j + 1, symbol := k,
        currentText := if j == st.next then st.cachedText else toks[j - 1].text,
        cachedText := toks[j].text,
        errors := st.errors + d, log := st.log + Skips(d))
  }

  /** One skipped ordinary token: an unexpected-token error, and the
      token after it becomes current. */
  lemma SkipOne(toks: seq<Token>, st: PState, k: TokenKind)
    requires st.next < |toks| && st.symbol != k && st.symbol != Eof && !IsErrorKind(toks[st.next].kind)
    ensures Expect(toks, st, k) == Expect(toks, SkipState(toks, st), k)
  {
    var r := ReportError(st, UnexpectedToken);
    assert r == st.(errors := st.errors + 1, log := st.log + [Reported(UnexpectedToken)]);
    ShiftOrdinary(toks, r);
    assert NextSymbol(toks, r) == SkipState(toks, st);
    assert Expect(toks, st, k) == Expect(toks, NextSymbol(toks, r), k);
  }

  /** Skipping one token first arrives at the same place. */
  lemma ArrivedAfterSkip(toks: seq<Token>, st: PState, k: TokenKind, j: nat)
    requires st.next < j < |toks|
    ensures ArrivedAt(toks, SkipState(toks, st), k, j) == ArrivedAt(toks, st, k, j)
  {
    SkipsMore(st.log, j - st.next);
  }

  /** `expect(k)` when the first `k` ahead is the token at `j` and the
      tokens before it are ordinary: the current symbol and every token
      before `j` are skipped with one unexpected-token error each, and the
      `k` at `j` is consumed. */
  lemma {:induction false} ExpectSkips(toks: seq<Token>, st: PState, k: TokenKind, j: nat)
    requires st.next <= j < |toks| && st.symbol != k && st.symbol != Eof && toks[j].kind == k && !IsErrorKind(k)
    requires forall i :: st.next <= i < j ==> toks[i].kind != k && toks[i].kind != Eof && !IsErrorKind(toks[i].kind)
    ensures var at := ArrivedAt(toks, st, k, j);
      at.errors == st.errors + (j - st.next + 1) && at.log == st.log + Skips(j - st.next + 1) &&
      Expect(toks, st, k) == (true, NextSymbol(toks, at))
    decreases j - st.next
  {
    SkipOne(toks, st, k);
    var s2 := SkipState(toks, st);
    if j == st.next {
      SkipsMore(st.log, 0);
      assert Skips(0) == [];
      assert s2 == ArrivedAt(toks, st, k, j);
    } else {
      ExpectSkips(toks, s2, k, j);
      ArrivedAfterSkip(toks, st, k, j);
    }
  }

  /** The state `expect` gives up in at `eof`, after skipping the current
      symbol and every token ahead. */
  function GaveUp(toks: seq<Token>, st: PState): PState
    requires st.next <= |toks|
  {
    var d := |toks| - st.next + 1;
    st.(next := |toks|, symbol := Eof,
        currentText := if st.next == |toks| then st.cachedText else toks[|toks| - 1].text,
        cachedText := "", errors := st.errors + d, log := st.log + Skips(d))
  }

  /** Skipping one token first gives up in the same place. */
  lemma GaveUpAfterSkip(toks: seq<Token>, st: PState)
    requires st.next < |toks|
    ensures GaveUp(toks, SkipState(toks, st)) == GaveUp(toks, st)
  {
    SkipsMore(st.log, |toks| - st.next);
  }

  /** `expect(k)` when no `k` is left and the tokens ahead are ordinary:
      it gives up at `eof` after one unexpected-token error for the
      current symbol and one for every token ahead. */
  lemma {:induction false} ExpectGivesUp(toks: seq<Token>, st: PState, k: TokenKind)
    requires st.next <= |toks| && st.symbol != k && st.symbol != Eof && k != Eof
    requires forall i :: st.next <= i < |toks| ==> toks[i].kind != k && toks[i].kind != Eof && !IsErrorKind(toks[i].kind)
    ensures var g := GaveUp(toks, st);
      g.errors == st.errors + (|toks| - st.next + 1) && g.log == st.log + Skips(|toks| - st.next + 1) &&
      Expect(toks, st, k) == (false, g)
    decreases |toks| - st.next
  {
    if st.next == |toks| {
      var s1 := ReportError(st, UnexpectedToken);
      ShiftEnd(toks, s1);
      SkipsMore(st.log, 0);
      assert Skips(0) == [];
      assert NextSymbol(toks, s1) == GaveUp(toks, st);
    } else {
      SkipOne(toks, st, k);
      ExpectGivesUp(toks, SkipState(toks, st), k);
      GaveUpAfterSkip(toks, st);
    }
  }

  /** `name = n`: the name is bound to the number, replacing any earlier
      value, and nothing is reported. */
  lemma NumberStatement(toks: seq<Token>, st: PState, name: seq<char>, d: seq<char>)
    requires st.next + 3 <= |toks| && st.symbol == Identifier && st.cachedText == name && name != "rule"
    requires toks[st.next].kind == Equals && toks[st.next + 1] == Token(Number, d)
    requires !IsErrorKind(toks[st.next + 2].kind)
    ensures ValueDescription(toks, st) ==
      st.(next := st.next + 3, symbol := toks[st.next + 2].kind, currentText := d,
          cachedText := toks[st.next + 2].text, values := st.values[name := Stoi(d)])
  {
    ShiftOrdinary(toks, st);
    var s1 := NextSymbol(toks, st);
    ShiftOrdinary(toks, s1);
    var s2 := NextSymbol(toks, s1);
    ShiftOrdinary(toks, s2);
  }

  /** `name = -n` and `name = +n`: the name is bound to the signed number,
      and nothing is reported. */
  lemma SignedStatement(toks: seq<Token>, st: PState, name: seq<char>, sign: TokenKind, d: seq<char>)
    requires st.next + 4 <= |toks| && st.symbol == Identifier && st.cachedText == name && name != "rule"
    requires sign == Minus || sign == Plus
    requires toks[st.next].kind == Equals && toks[st.next + 1].kind == sign && toks[st.next + 2] == Token(Number, d)
    requires !IsErrorKind(toks[st.next + 3].kind)
    ensures ValueDescription(toks, st) ==
      st.(next := st.next + 4, symbol := toks[st.next + 3].kind, currentText := d,
          cachedText := toks[st.next + 3].text,
          values := st.values[name := (if sign == Minus then -1 else 1) * Stoi(d)])
  {
    ShiftOrdinary(toks, st);
    var s1 := NextSymbol(toks, st);
    ShiftOrdinary(toks, s1);
    var s2 := NextSymbol(toks, s1);
    ShiftOrdinary(toks, s2);
    var s3 := NextSymbol(toks, s2);
    ShiftOrdinary(toks, s3);
  }

  /** `%(n)`: the value of the number, nothing reported. */
  lemma PercentNumber(toks: seq<Token>, st: PState, d: seq<char>)
    requires st.next + 4 <= |toks| && st.symbol == Percent
    requires toks[st.next].kind == OBracket && toks[st.next + 1] == Token(Number, d)
    requires toks[st.next + 2].kind == CBracket && !IsErrorKind(toks[st.next + 3].kind)
    ensures ExpressionValue(toks, st).0 == Stoi(d)
    ensures ExpressionValue(toks, st).1 ==
      st.(next := st.next + 4, symbol := toks[st.next + 3].kind, currentText := toks[st.next + 2].text,
          cachedText := toks[st.next + 3].text)
  {
    ShiftOrdinary(toks, st);
    var s1 := NextSymbol(toks, st);
    ShiftOrdinary(toks, s1);
    var s2 := NextSymbol(toks, s1);
    ShiftOrdinary(toks, s2);
    var s3 := NextSymbol(toks, s2);
    LoneNumber(toks, s2);
    ShiftOrdinary(toks, s3);
  }

  /** After a sign, the value is what follows it, negated after a minus. */
  lemma SignedValue(toks: seq<Token>, st: PState, minus: bool, plus: bool)
    requires st.next <= |toks| && (st.symbol == Minus || st.symbol == Plus)
    requires minus == (st.symbol == Minus) && plus == (st.symbol == Plus)
    ensures var u := Unsigned(toks, NextSymbol(toks, st), minus, plus);
      AssignedValue(toks, st).0 == (if minus then -u.0 else u.0) && AssignedValue(toks, st).1 == u.1
  {
    var sg := Sign(toks, st);
    assert sg.0 == minus && sg.1 == plus && sg.2 == NextSymbol(toks, st);
  }

  /** Anything but a number after the sign is read as an expression,
      after an error for each sign. */
  lemma UnsignedExpression(toks: seq<Token>, st: PState, minus: bool, plus: bool)
    requires st.next <= |toks| && st.symbol != Number
    ensures Unsigned(toks, st, minus, plus) == ExpressionValue(toks, UnaryErrors(st, minus, plus))
  {
  }

  /** A sign before `%(n)`: one error for the sign, and the value of the
      number, negated after a minus. */
  lemma SignedPercent(toks: seq<Token>, st: PState, d: seq<char>)
    requires st.next + 5 <= |toks| && (st.symbol == Minus || st.symbol == Plus)
    requires toks[st.next].kind == Percent && toks[st.next + 1].kind == OBracket && toks[st.next + 2] == Token(Number, d)
    requires toks[st.next + 3].kind == CBracket && !IsErrorKind(toks[st.next + 4].kind)
    ensures AssignedValue(toks, st).0 == (if st.symbol == Minus then -1 else 1) * Stoi(d)
    ensures AssignedValue(toks, st).1 ==
      st.(next := st.next + 5, symbol := toks[st.next + 4].kind, currentText := toks[st.next + 3].text,
          cachedText := toks[st.next + 4].text, errors := st.errors + 1,
          log := st.log + [Reported(if st.symbol == Minus then UnaryMinus else UnaryPlus)])
  {
    SignedPercentAt(toks, st, st.next + 1, d);
  }

  /** `SignedPercent`, with `n` the index of the token after `%`. */
  lemma SignedPercentAt(toks: seq<Token>, st: PState, n: nat, d: seq<char>)
    requires n == st.next + 1 && n + 4 <= |toks| && (st.symbol == Minus || st.symbol == Plus)
    requires toks[st.next].kind == Percent && toks[n].kind == OBracket && toks[n + 1] == Token(Number, d)
    requires toks[n + 2].kind == CBracket && !IsErrorKind(toks[n + 3].kind)
    ensures AssignedValue(toks, st).0 == (if st.symbol == Minus then -1 else 1) * Stoi(d)
    ensures AssignedValue(toks, st).1 ==
      st.(next := n + 4, symbol := toks[n + 3].kind, currentText := toks[n + 2].text,
          cachedText := toks[n + 3].text, errors := st.errors + 1,
          log := st.log + [Reported(if st.symbol == Minus then UnaryMinus else UnaryPlus)])
  {
    ShiftOrdinary(toks, st);
    var minus, plus := st.symbol == Minus, st.symbol == Plus;
    var s1 := NextSymbol(toks, st);
    var s4 := UnaryErrors(s1, minus, plus);
    assert s4 == s1.(errors := st.errors + 1, log := st.log + [Reported(if minus then UnaryMinus else UnaryPlus)]);
    assert s4.next == n;
    PercentNumber(toks, s4, d);
    var e := ExpressionValue(toks, s4);
    assert e.1 == s4.(next := n + 4, symbol := toks[n + 3].kind, currentText := toks[n + 2].text,
                      cachedText := toks[n + 3].text);
    SignedValue(toks, st, minus, plus);
    UnsignedExpression(toks, s1, minus, plus);
  }

  /** `name = -%(n)` and `name = +%(n)`: a sign before an expression is an
      error (unary minus or unary plus), and a minus still negates. */
  lemma SignedExpression(toks: seq<Token>, st: PState, name: seq<char>, sign: TokenKind, d: seq<char>)
    requires st.next + 7 <= |toks| && st.symbol == Identifier && st.cachedText == name && name != "rule"
    requires sign == Minus || sign == Plus
    requires toks[st.next].kind == Equals && toks[st.next + 1].kind == sign && toks[st.next + 2].kind == Percent
    requires toks[st.next + 3].kind == OBracket && toks[st.next + 4] == Token(Number, d)
    requires toks[st.next + 5].kind == CBracket && !IsErrorKind(toks[st.next + 6].kind)
    ensures var r := ValueDescription(toks, st);
      r.values == st.values[name := (if sign == Minus then -1 else 1) * Stoi(d)] &&
      r.errors == st.errors + 1 &&
      r.log == st.log + [Reported(if sign == Minus then UnaryMinus else UnaryPlus)] &&
      r.next == st.next + 7 && r.symbol == toks[st.next + 6].kind
  {
    ShiftOrdinary(toks, st);
    var s1 := NextSymbol(toks, st);
    ShiftOrdinary(toks, s1);
    var s2 := NextSymbol(toks, s1);
    assert s2 == st.(next := st.next + 2, symbol := sign, currentText := toks[st.next].text,
                     cachedText := toks[st.next + 1].text);
    SignedPercent(toks, s2, d);
    assert ValueDescription(toks, st) == Assignment(toks, s2, name);
  }

  /** `rule = Bn/Sm`: the digits of `n` are added to the born set and those
      of `m` to the survive set, and nothing is reported. */
  lemma RuleStatement(toks: seq<Token>, st: PState, n: seq<char>, m: seq<char>)
    requires st.next + 7 <= |toks| && st.symbol == Identifier && st.cachedText == "rule"
    requires toks[st.next].kind == Equals && toks[st.next + 1].kind == B && toks[st.next + 2] == Token(Number, n)
    requires toks[st.next + 3].kind == Slash && toks[st.next + 4].kind == S && toks[st.next + 5] == Token(Number, m)
    requires !IsErrorKind(toks[st.next + 6].kind)
    ensures ValueDescription(toks, st) ==
      st.(next := st.next + 7, symbol := toks[st.next + 6].kind, currentText := m,
          cachedText := toks[st.next + 6].text,
          born := st.born + DigitSet(n), survives := st.survives + DigitSet(m))
  {
    ShiftOrdinary(toks, st);
    var s1 := NextSymbol(toks, st);
    ShiftOrdinary(toks, s1);
    var s2 := NextSymbol(toks, s1);
    ShiftOrdinary(toks, s2);
    var s3 := NextSymbol(toks, s2);
    ShiftOrdinary(toks, s3);
    var s4 := NextSymbol(toks, s3);
    ShiftOrdinary(toks, s4);
    var s5 := NextSymbol(toks, s4);
    ShiftOrdinary(toks, s5);
    var s6 := NextSymbol(toks, s5);
    ShiftOrdinary(toks, s6);
  }

  /** A second binding of the same name replaces the first. */
  lemma Overwrite(m: map<seq<char>, int>, name: seq<char>, a: int, b: int)
    ensures m[name := a][name := b] == m[name := b]
  {
  }

  /** `, name = b` closing the header statements. */
  lemma CommaAssignment(toks: seq<Token>, st: PState, name: seq<char>, b: seq<char>)
    requires st.next + 4 <= |toks| && st.symbol == Comma && name != "rule"
    requires toks[st.next] == Token(Identifier, name) && toks[st.next + 1].kind == Equals
    requires toks[st.next + 2] == Token(Number, b)
    requires !IsErrorKind(toks[st.next + 3].kind) && toks[st.next + 3].kind != Comma
    ensures var r := Statements(toks, st);
      r.values == st.values[name := Stoi(b)] && r.errors == st.errors && r.log == st.log
  {
    ShiftOrdinary(toks, st);
    var s2 := NextSymbol(toks, st);
    NumberStatement(toks, s2, name, b);
    var s3 := ValueDescription(toks, s2);
    assert Statement(toks, s2) == s3;
    assert Statements(toks, s3) == s3;
  }

  /** `name = a, name = b`: the last assignment wins. */
  lemma LastAssignmentWins(toks: seq<Token>, st: PState, name: seq<char>, a: seq<char>, b: seq<char>)
    requires st.next + 7 <= |toks| && st.symbol == Identifier && st.cachedText == name && name != "rule"
    requires toks[st.next].kind == Equals && toks[st.next + 1] == Token(Number, a) && toks[st.next + 2].kind == Comma
    requires toks[st.next + 3] == Token(Identifier, name) && toks[st.next + 4].kind == Equals
    requires toks[st.next + 5] == Token(Number, b)
    requires !IsErrorKind(toks[st.next + 6].kind) && toks[st.next + 6].kind != Comma
    ensures var r := Statements(toks, Statement(toks, st));
      r.values == st.values[name := Stoi(b)] && r.errors == st.errors && r.log == st.log
  {
    NumberStatement(toks, st, name, a);
    var s1 := ValueDescription(toks, st);
    assert Statement(toks, st) == s1;
    assert s1.next == st.next + 3 && s1.symbol == Comma && s1.values == st.values[name := Stoi(a)];
    assert s1.errors == st.errors && s1.log == st.log;
    CommaAssignment(toks, s1, name, b);
    Overwrite(st.values, name, Stoi(a), Stoi(b));
  }
}
