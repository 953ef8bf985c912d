// The class `Parser` of src/rtl_parser.cpp:328-807: the recursive-descent
// parser as the C++ code runs it, one method per member function, each
// proved to leave the parser in the state the function of the same name in
// module `Parsing` describes.

module RtlParser {
  import opened Wrappers
  import opened Tokens
  import opened Lexing
  import opened Cursor
  import opened Grids
  import opened Boards
  import P = Parsing

  class Parser {
    /** `m_lex`. */
    const lexer: Lexer
    /** Every token the lexer hands out before `eof`. */
    ghost const tokens: seq<Token>
    /** The lexer's stream before each of them, and before `eof`. */
    ghost const streams: seq<Stream>
    /** How many of them it has handed out. */
    ghost var next: nat
    /** `m_board`; `null` until the header has built it. */
    var board: Board?
    var symbol: TokenKind
    var currentText: seq<char>
    var cachedText: seq<char>
    var values: map<seq<char>, int>
    var born: set<int>
    var survives: set<int>
    var errorCount: nat
    var position: Position
    /** The lines written to `std::cerr`. */
    var printed: seq<P.Line>
    /** Every `error` and `warning` call so far. */
    ghost var log: seq<P.Diagnostic>

    /** The lexer `l` has handed out the first `n` tokens of `ts` (and,
        when `n == |ts|`, possibly `eof` as well); `ss` are its streams
        before each. */
    static ghost predicate Synced(l: Lexer, ts: seq<Token>, ss: seq<Stream>, n: nat)
      reads l
    {
      l.Valid() && Table(l.input, ts, ss) && n <= |ts| &&
      (l.State() == ss[n] || (n == |ts| && l.State() == Stream(|l.input|, true)))
    }

    /** The parser's fields as a `Parsing.PState`. */
    ghost function State(): P.PState
      reads this, lexer, board
    {
      P.PState(next, symbol, currentText, cachedText, values, born, survives, errorCount, log,
               if board == null then None else Some(board.ToGrid()), position)
    }

    /** The lexer's stream is valid, the error count counts the errors
        reported and the error stream holds their capped printout; the
        board, once built, is well shaped and keeps the rules of its
        constructor, since the parser never calls `set_rules`. */
    ghost predicate Valid()
      reads this, lexer, board
    {
      Synced(lexer, tokens, streams, next) &&
      P.ErrorCount(log) == errorCount && printed == P.Printed(log) &&
      (board != null ==> board.Valid() && board.born == {3} && board.survives == {2, 3})
    }

    /** `Parser()` followed by `m_lex.emplace(stream)`. */
    constructor (input: seq<char>)
      ensures Valid() && lexer.input == input && State() == P.InitialState()
      ensures tokens == Tokenize(input, Stream(0, false))
      ensures fresh(lexer)
    {
      lexer := new Lexer(input);
      tokens := Tokenize(input, Stream(0, false));
      streams := Streams(input, Stream(0, false));
      TableOf(input, Stream(0, false));
      next := 0;
      board := null;
      symbol := Eof;
      currentText := "";
      cachedText := "";
      values := map[];
      born := {};
      survives := {};
      errorCount := 0;
      position := Begin();
      printed := [];
      log := [];
    }

    /** `error(message)`. */
    method Error(p: P.Problem)
      requires Valid()
      modifies this
      ensures board == old(board)
      ensures Valid()
      ensures State() == P.ReportError(old(State()), p)
    {
      ghost var s0 := State();
      var line: seq<P.Line> := [];
      if errorCount == P.MaxErrorCount {
        line := [P.ExceededLine];
      } else if errorCount < P.MaxErrorCount {
        line := [P.ErrorLine(p)];
      }
      assert line == P.LineFor(P.Reported(p), errorCount);
      P.LogSnoc(log, P.Reported(p));
      printed, errorCount, log := printed + line, errorCount + 1, log + [P.Reported(p)];
      assert P.ErrorCount(log) == errorCount && printed == P.Printed(log);
      assert State() == s0.(errors := errorCount, log := log);
    }

    /** `warning(message)`. */
    method Warning(w: P.Caution)
      requires Valid()
      modifies this
      ensures board == old(board)
      ensures Valid() && State() == P.ReportWarning(old(State()), w)
    {
      ghost var s0 := State();
      printed := printed + [P.WarningLine(w)];
      P.LogSnoc(log, P.Warned(w));
      log := log + [P.Warned(w)];
      assert State() == s0.(log := s0.log + [P.Warned(w)]);
    }

    /** `next_symbol()`. */
    method NextSymbol()
      requires Valid()
      modifies this, lexer
      ensures board == old(board)
      ensures Valid() && State() == P.NextSymbol(tokens, old(State()))
    {
      ReadToken();
      TokenError();
    }

    /** The first line of `next_symbol()`: the lexer's next token becomes
        the current symbol. */
    method ReadToken()
      requires Valid()
      modifies this, lexer
      ensures board == old(board)
      ensures Valid()
      ensures State() == P.Shift(tokens, old(State()))
    {
      ghost var s0 := State();
      TableStep(lexer.input, tokens, streams, next, lexer.State());
      var t := lexer.Lex();
      assert next < |tokens| ==> t == tokens[next] && lexer.State() == streams[next + 1];
      assert next == |tokens| ==> t == Token(Eof, "") && lexer.State() == Stream(|lexer.input|, true);
      assert State() == s0;
      if t.kind != Eof {
        next := next + 1;
      }
      symbol := t.kind;
      currentText := cachedText;
      cachedText := t.text;
      assert State() == s0.(next := next, symbol := t.kind, currentText := s0.cachedText, cachedText := t.text);
    }

    /** `token_error()`. */
    method TokenError()
      requires Valid()
      modifies this
      ensures board == old(board)
      ensures Valid() && State() == P.TokenError(old(State()))
    {
      if symbol == StringError {
        Error(P.UnmatchedString);
      } else if symbol == TokenKind.Error {
        Error(P.UnknownError);
      }
    }

    /** `accept(symbol)`. */
    method Accept(k: TokenKind) returns (accepted: bool)
      requires Valid()
      modifies this, lexer
      ensures board == old(board)
      ensures Valid()
      ensures accepted == P.Accept(tokens, old(State()), k).0
      ensures State() == P.Accept(tokens, old(State()), k).1
    {
      if symbol == k {
        NextSymbol();
        return true;
      }
      return false;
    }

    /** `expect(symbol)` with `PARSE_ANYWAY`, and `unexpected_token`. */
    method Expect(k: TokenKind) returns (found: bool)
      requires Valid()
      modifies this, lexer
      ensures board == old(board)
      ensures Valid()
      ensures found == P.Expect(tokens, old(State()), k).0
      ensures State() == P.Expect(tokens, old(State()), k).1
    {
      ghost var goal := P.Expect(tokens, State(), k);
      while true
        invariant Valid() && board == old(board) && P.Expect(tokens, State(), k) == goal
        decreases P.Rest(tokens, State())
      {
        found := Accept(k);
        if found {
          return;
        }
        if symbol == Eof {
          return;
        }
        Error(P.UnexpectedToken);
        NextSymbol();
      }
    }
  
    /** The operand at the start of `math_expression()`. The chain of
        `accept` calls is one test of the current symbol here: an `accept`
        that fails changes nothing. */
    method Operand() returns (v: int)
      requires Valid()
      modifies this, lexer
      ensures board == old(board)
      ensures Valid()
      ensures v == P.Operand(tokens, old(State())).0
      ensures State() == P.Operand(tokens, old(State())).1
      decreases P.Rest(tokens, State()), 0
    {
      var k := symbol;
      if k == Identifier {
        NextSymbol();
        v := Lookup();
      } else if k == Number {
        NextSymbol();
        v := P.Stoi(currentText);
      } else if k == Minus || k == Plus || k == OBracket {
        NextSymbol();
        v := MathExpression();
        v := Nested(k, v);
      } else {
        Error(P.WrongArgument);
        v := 0;
      }
    }

    /** The identifier branch of `math_expression()`, after `accept`. */
    method Lookup() returns (v: int)
      requires Valid()
      modifies this
      ensures board == old(board)
      ensures Valid()
      ensures v == P.Lookup(old(State())).0
      ensures State() == P.Lookup(old(State())).1
    {
      var name := currentText;
      if name !in values {
        Error(P.UnknownVariable);
        ghost var s1 := State();
        values := values[name := 0];
        assert State() == s1.(values := values);
      }
      v := values[name];
    }

    /** What follows the expression after `-`, `+` or `(`, whose value is
        `a`. */
    method Nested(k: TokenKind, a: int) returns (v: int)
      requires Valid()
      modifies this, lexer
      ensures board == old(board)
      ensures Valid()
      ensures v == P.Nested(tokens, k, (a, old(State()))).0
      ensures State() == P.Nested(tokens, k, (a, old(State()))).1
    {
      v := a;
      if k == Minus {
        v := -a;
      } else if k == OBracket {
        var found := Expect(CBracket);
      }
    }

    /** `math_expression()`: every operator takes the rest of the
        expression as its right operand. */
    method MathExpression() returns (v: int)
      requires Valid()
      modifies this, lexer
      ensures board == old(board)
      ensures Valid()
      ensures v == P.MathExpression(tokens, old(State())).0
      ensures State() == P.MathExpression(tokens, old(State())).1
      decreases P.Rest(tokens, State()), 2
    {
      var a := Operand();
      v := Operator(a);
    }

    /** The end of `math_expression()`, after the operand `a`. The four
        lines `if (accept(op)) return result op math_expression();` are one
        test of the current symbol here: an `accept` that fails changes
        nothing. */
    method Operator(a: int) returns (v: int)
      requires Valid()
      modifies this, lexer
      ensures board == old(board)
      ensures Valid()
      ensures v == P.Operator(tokens, a, old(State())).0
      ensures State() == P.Operator(tokens, a, old(State())).1
      decreases P.Rest(tokens, State()), 1
    {
      var op := symbol;
      if !P.IsOperator(op) {
        return a;
      }
      ghost var st := State();
      NextSymbol();
      ghost var s1 := State();
      var b := MathExpression();
      assert P.Operator(tokens, a, st) == P.Apply(op, a, b, State());
      v := Combine(op, a, b);
    }

    /** The arithmetic at the end of `math_expression()`: `*`, `/` (which
        truncates; a zero divisor is reported), `+` or `-`. */
    method Combine(op: TokenKind, a: int, b: int) returns (v: int)
      requires Valid() && P.IsOperator(op)
      modifies this
      ensures board == old(board)
      ensures Valid()
      ensures v == P.Apply(op, a, b, old(State())).0
      ensures State() == P.Apply(op, a, b, old(State())).1
    {
      if op == Slash && b == 0 {
        Error(P.DivisionByZero);
        return 0;
      }
      if op == Multiply {
        v := a * b;
      } else if op == Slash {
        v := P.TruncDiv(a, b);
      } else if op == Plus {
        v := a + b;
      } else {
        v := a - b;
      }
    }
  
    /** `expression_value()`: `%(`, an expression, `)`. */
    method ExpressionValue() returns (v: int)
      requires Valid()
      modifies this, lexer
      ensures board == old(board)
      ensures Valid()
      ensures v == P.ExpressionValue(tokens, old(State())).0
      ensures State() == P.ExpressionValue(tokens, old(State())).1
    {
      var found := Expect(Percent);
      found := Expect(OBracket);
      v := MathExpression();
      found := Expect(CBracket);
    }

    /** `for (auto&& iter : text) set.insert(iter - '0')`. */
    static method InsertDigits(s: set<int>, text: seq<char>) returns (r: set<int>)
      ensures r == s + P.DigitSet(text)
    {
      r := s;
      for i := 0 to |text|
        invariant r == s + P.DigitSet(text[..i])
      {
        assert P.DigitSet(text[..i + 1]) == P.DigitSet(text[..i]) + {text[i] as int - '0' as int};
        r := r + {text[i] as int - '0' as int};
      }
      assert text[..|text|] == text;
    }

    /** `rule_description()`: `B`, then the survive part. */
    method RuleDescription()
      requires Valid()
      modifies this, lexer
      ensures board == old(board)
      ensures Valid() && State() == P.RuleDescription(tokens, old(State()))
    {
      var digits := RuleHalf(B);
      AddBorn(digits);
      SurvivePart();
    }

    /** The part of `rule_description()` after the born digits. */
    method SurvivePart()
      requires Valid()
      modifies this, lexer
      ensures board == old(board)
      ensures Valid()
      ensures State() == P.SurvivePart(tokens, old(State()))
    {
      var found := Expect(Slash);
      var digits := RuleHalf(S);
      AddSurvives(digits);
    }

    /** The insertion of the born digits into `m_born`. */
    method AddBorn(digits: set<int>)
      requires Valid()
      modifies this
      ensures board == old(board)
      ensures Valid()
      ensures State() == old(State()).(born := old(born) + digits)
    {
      born := born + digits;
    }

    /** The insertion of the survive digits into `m_survives`. */
    method AddSurvives(digits: set<int>)
      requires Valid()
      modifies this
      ensures board == old(board)
      ensures Valid()
      ensures State() == old(State()).(survives := old(survives) + digits)
    {
      survives := survives + digits;
    }

    /** `expect(k); expect(_NUMBER);` and the digits of the number. */
    method RuleHalf(k: TokenKind) returns (digits: set<int>)
      requires Valid()
      modifies this, lexer
      ensures board == old(board)
      ensures Valid()
      ensures digits == P.RuleHalf(tokens, old(State()), k).0
      ensures State() == P.RuleHalf(tokens, old(State()), k).1
    {
      var found := Expect(k);
      found := Expect(Number);
      digits := InsertDigits({}, currentText);
      assert digits == P.DigitSet(currentText);
    }

    /** The `else` branch of `value_description()`: the value assigned. */
    method AssignedValue() returns (v: int)
      requires Valid()
      modifies this, lexer
      ensures board == old(board)
      ensures Valid()
      ensures v == P.AssignedValue(tokens, old(State())).0
      ensures State() == P.AssignedValue(tokens, old(State())).1
    {
      ghost var st := State();
      var minus, plus := Sign();
      ghost var s1 := State();
      v := Unsigned(minus, plus);
      assert P.AssignedValue(tokens, st).1 == State();
      assert P.AssignedValue(tokens, st).0 == if minus then -v else v;
      if minus {
        v := -v;
      }
    }

    /** `if (accept(_NUMBER)) ... else ...` after the sign; the `accept` is
        one test of the current symbol here. */
    method Unsigned(minus: bool, plus: bool) returns (v: int)
      requires Valid()
      modifies this, lexer
      ensures board == old(board)
      ensures Valid()
      ensures v == P.Unsigned(tokens, old(State()), minus, plus).0
      ensures State() == P.Unsigned(tokens, old(State()), minus, plus).1
    {
      if symbol == Number {
        NextSymbol();
        v := P.Stoi(currentText);
      } else {
        UnaryErrors(minus, plus);
        v := ExpressionValue();
      }
    }

    /** `if (accept(_MINUS)) ... else if (accept(_PLUS)) ...`. */
    method Sign() returns (minus: bool, plus: bool)
      requires Valid()
      modifies this, lexer
      ensures board == old(board)
      ensures Valid()
      ensures minus == P.Sign(tokens, old(State())).0 && plus == P.Sign(tokens, old(State())).1
      ensures State() == P.Sign(tokens, old(State())).2
    {
      minus := Accept(Minus);
      plus := false;
      if !minus {
        plus := Accept(Plus);
      }
    }

    /** The errors for a sign before `%(...)`. */
    method UnaryErrors(minus: bool, plus: bool)
      requires Valid()
      modifies this
      ensures board == old(board)
      ensures Valid() && State() == P.UnaryErrors(old(State()), minus, plus)
    {
      if minus {
        Error(P.UnaryMinus);
      }
      if plus {
        Error(P.UnaryPlus);
      }
    }

    /** `value_description()`. */
    method ValueDescription()
      requires Valid()
      modifies this, lexer
      ensures board == old(board)
      ensures Valid() && State() == P.ValueDescription(tokens, old(State()))
    {
      var found := Expect(Identifier);
      var identifier := currentText;
      found := Expect(Equals);
      if identifier == "rule" {
        RuleDescription();
      } else {
        Assignment(identifier);
      }
    }

    /** The `else` branch of `value_description()`:
        `m_values.insert_or_assign(identifier, result)`. */
    method Assignment(identifier: seq<char>)
      requires Valid()
      modifies this, lexer
      ensures board == old(board)
      ensures Valid() && State() == P.Assignment(tokens, old(State()), identifier)
    {
      var v := AssignedValue();
      ghost var s := State();
      values := values[identifier := v];
      assert State() == s.(values := values);
    }

    /** `print()`, without its output: the arguments are parsed. */
    method Print()
      requires Valid()
      modifies this, lexer
      ensures board == old(board)
      ensures Valid() && State() == P.Print(tokens, old(State()))
    {
      if symbol == CBracket {
        return;
      }
      ghost var goal := P.PrintItems(tokens, State());
      while true
        invariant Valid() && board == old(board) && P.PrintItems(tokens, State()) == goal
        decreases P.Rest(tokens, State())
      {
        var str := Accept(Str);
        if !str {
          var v := MathExpression();
        }
        var more := Accept(Comma);
        if !more {
          return;
        }
      }
    }

    /** `function_call()`. */
    method FunctionCall()
      requires Valid()
      modifies this, lexer
      ensures board == old(board)
      ensures Valid() && State() == P.FunctionCall(tokens, old(State()))
    {
      var found := Expect(Identifier);
      if currentText != "print" {
        Error(P.NoSuchFunction);
        return;
      }
      found := Expect(OBracket);
      Print();
      found := Expect(CBracket);
    }

    /** `statement()`. */
    method Statement()
      requires Valid()
      modifies this, lexer
      ensures board == old(board)
      ensures Valid() && State() == P.Statement(tokens, old(State()))
    {
      var call := Accept(Call);
      if call {
        FunctionCall();
      } else {
        ValueDescription();
      }
    }
  
    /** The `while (accept(_COMMA)) statement();` loop of
        `header_section()`. */
    method Statements()
      requires Valid()
      modifies this, lexer
      ensures board == old(board)
      ensures Valid() && State() == P.Statements(tokens, old(State()))
    {
      ghost var goal := P.Statements(tokens, State());
      while true
        invariant Valid() && board == old(board) && P.Statements(tokens, State()) == goal
        decreases P.Rest(tokens, State())
      {
        var comma := Accept(Comma);
        if !comma {
          return;
        }
        Statement();
      }
    }

    /** `header_section()`. */
    method HeaderSection()
      requires Valid()
      modifies this, lexer
      ensures board == old(board) || fresh(board)
      ensures Valid() && State() == P.HeaderSection(tokens, old(State()))
    {
      if symbol == Identifier || symbol == Call {
        Statement();
        Statements();
      }
      HeaderChecks();
    }

    /** The end of `header_section()`: defaults, checks and the board. */
    method HeaderChecks()
      requires Valid()
      modifies this
      ensures board == old(board) || fresh(board)
      ensures Valid() && State() == P.HeaderChecks(tokens, old(State()))
    {
      var x, y := HeaderDefaults();
      DimensionChecks(x, y);
    }

    /** The default values of `x`, `y` and the rule, each with a warning. */
    method HeaderDefaults() returns (x: int, y: int)
      requires Valid()
      modifies this
      ensures board == old(board)
      ensures Valid()
      ensures x == P.HeaderDefaults(old(State())).0 && y == P.HeaderDefaults(old(State())).1
      ensures State() == P.HeaderDefaults(old(State())).2
    {
      ghost var s0 := State();
      x := Dimension("x", P.XNotSet);
      ghost var s1 := State();
      assert (x, s1) == P.Dimension(s0, "x", P.XNotSet);
      y := Dimension("y", P.YNotSet);
      ghost var s2 := State();
      assert (y, s2) == P.Dimension(s1, "y", P.YNotSet);
      if born == {} || survives == {} {
        Warning(P.RuleNotSet);
        AddBorn({3});
        AddSurvives({2, 3});
      }
    }

    /** The value of `x` or `y`, or 10 with a warning. */
    method Dimension(name: seq<char>, w: P.Caution) returns (v: int)
      requires Valid()
      modifies this
      ensures board == old(board)
      ensures Valid()
      ensures v == P.Dimension(old(State()), name, w).0 && State() == P.Dimension(old(State()), name, w).1
    {
      if name !in values {
        v := 10;
        Warning(w);
      } else {
        v := values[name];
      }
    }

    /** The checks of `x` and `y`, then `m_board = Board(y, x)` and
        `m_position = m_board->begin()`. */
    method DimensionChecks(x: int, y: int)
      requires Valid()
      modifies this
      ensures board == old(board) || fresh(board)
      ensures Valid() && State() == P.DimensionChecks(old(State()), x, y)
    {
      var valid := true;
      if x < 1 {
        Error(P.InvalidX);
        valid := false;
      }
      if y < 1 {
        Error(P.InvalidY);
        valid := false;
      }
      if !valid {
        return;
      }
      board := new Board(y, x);
      position := Begin();
    }

    /** `comment_section()`. */
    method Comments()
      requires Valid()
      modifies this, lexer
      ensures board == old(board)
      ensures Valid() && State() == P.Comments(tokens, old(State()))
    {
      ghost var goal := P.Comments(tokens, State());
      while true
        invariant Valid() && board == old(board) && P.Comments(tokens, State()) == goal
        decreases P.Rest(tokens, State())
      {
        var comment := Accept(Comment);
        if !comment {
          return;
        }
      }
    }

    /** One `add_at(m_position++)` (for `alive`) or `kill_at(m_position++)`. */
    method Step(alive: bool)
      requires Valid() && P.Drawing(State())
      modifies this, board
      ensures board == old(board)
      ensures Valid() && P.Drawing(State())
      ensures board.ToGrid() == old(board.ToGrid()).(cells := SetCell(old(board.cells), board.height, board.width,
                                                                     old(position.row), old(position.col), alive))
      ensures position == Next(old(position), board.width)
      ensures State() == old(State()).(grid := Some(board.ToGrid()), position := position)
    {
      ghost var st0 := State();
      var (at, after) := PostIncrement(position, board.width);
      if alive {
        board.AddAtPosition(at);
      } else {
        board.KillAtPosition(at);
      }
      ghost var s1 := State();
      assert s1 == st0.(grid := Some(board.ToGrid()));
      position := after;
      assert State() == s1.(position := position);
    }

    /** `while (repetitions--) m_board->add_at(m_position++);` for `alive`,
        the same with `kill_at` otherwise. */
    method Repeat(repetitions: nat, alive: bool)
      requires Valid() && P.Drawing(State())
      modifies this, board
      ensures board == old(board)
      ensures Valid() && State() == P.Put(old(State()), repetitions, alive)
    {
      ghost var st0 := State();
      ghost var g0 := board.ToGrid();
      ghost var p0 := position;
      assert st0.grid == Some(g0);
      var left: nat := repetitions;
      while left > 0
        invariant Valid() && left <= repetitions && board == old(board) && board.Valid()
        invariant board.born == {3} && board.survives == {2, 3}
        invariant board.ToGrid() == P.Fill(g0, p0, repetitions - left, alive).0
        invariant position == P.Fill(g0, p0, repetitions - left, alive).1
        invariant State() == st0.(grid := Some(board.ToGrid()), position := position)
      {
        Step(alive);
        left := left - 1;
      }
      assert st0 == old(State());
    }

    /** `pattern()`. The `accept(_NUMBER)` and `ask(_PERCENT)` are one test
        of the current symbol here. */
    method Pattern()
      requires Valid() && P.Drawing(State())
      modifies this, lexer, board
      ensures board == old(board)
      ensures Valid() && State() == P.Pattern(tokens, old(State()))
    {
      var repetitions := 1;
      if symbol == Number {
        NextSymbol();
        repetitions := P.Stoi(currentText);
      } else if symbol == Percent {
        var v := ExpressionValue();
        Error(P.NegativeExpression);
        return;
      }
      Run(repetitions);
    }

    /** The end of `pattern()`: `b` kills, anything else expects `o` and
        adds. */
    method Run(repetitions: nat)
      requires Valid() && P.Drawing(State())
      modifies this, lexer, board
      ensures board == old(board)
      ensures Valid() && State() == P.Run(tokens, old(State()), repetitions)
    {
      var dead := Accept(B);
      if dead {
        Repeat(repetitions, false);
      } else {
        var found := Expect(O);
        Repeat(repetitions, true);
      }
    }

    /** `line_pattern()`. */
    method LinePattern()
      requires Valid() && P.Drawing(State())
      modifies this, lexer, board
      ensures board == old(board)
      ensures Valid() && State() == P.LinePattern(tokens, old(State()))
    {
      Pattern();
      ghost var goal := P.MorePatterns(tokens, State());
      while symbol == Number || symbol == B || symbol == O
        invariant Valid() && P.Drawing(State()) && board == old(board)
        invariant P.MorePatterns(tokens, State()) == goal
        decreases P.Rest(tokens, State())
      {
        Pattern();
      }
    }

    /** `finnish_line()`: the number of cells killed. */
    method FinishLine() returns (added: int)
      requires Valid() && P.Drawing(State())
      modifies this, board
      ensures board == old(board)
      ensures Valid()
      ensures State() == old(State()).(grid := Some(P.FinishLine(old(board.ToGrid()), old(position)).0),
                                       position := P.FinishLine(old(board.ToGrid()), old(position)).1)
      ensures added == if old(position.col) == 0 then 0 else board.width - old(position.col)
    {
      if position.col == 0 {
        return 0;
      }
      ghost var st0 := State();
      ghost var g0 := board.ToGrid();
      ghost var p0 := position;
      assert st0.grid == Some(g0);
      var startRow := position.row;
      added := 0;
      while startRow == position.row
        invariant Valid() && board == old(board) && board != null && board.Valid()
        invariant 0 <= added <= board.width - p0.col
        invariant board.born == {3} && board.survives == {2, 3}
        invariant position == if added < board.width - p0.col then Position(p0.row, p0.col + added)
                               else Position(p0.row + 1, 0)
        invariant board.ToGrid() == P.Fill(g0, p0, added, false).0
        invariant position == P.Fill(g0, p0, added, false).1
        invariant State() == st0.(grid := Some(board.ToGrid()), position := position)
        decreases board.width - p0.col - added
      {
        added := added + 1;
        Step(false);
      }
      assert st0 == old(State());
    }

    /** The check before `finnish_line()` in `pattern_section()`, and the
        call. */
    method CloseRow(row: nat)
      requires Valid() && P.Drawing(State())
      modifies this, board
      ensures board == old(board)
      ensures Valid() && State() == P.CloseRow(tokens, old(State()), row)
    {
      if !(row == position.row || (row + 1 == position.row && 0 == position.col)) {
        Error(P.LineTooLong);
      }
      var added := FinishLine();
    }

    /** `pattern_section()`. */
    method PatternSection()
      requires Valid() && (errorCount == 0 ==> P.Drawing(State()))
      modifies this, lexer, board
      ensures board == old(board)
      ensures Valid() && State() == P.PatternSection(tokens, old(State()))
    {
      if errorCount != 0 {
        return;
      }
      var row := position.row;
      LinePattern();
      row := Lines(row);
      CloseRow(row);
      var found := Expect(ExclamationMark);
    }

    /** The `while (accept(_DOLAR))` loop of `pattern_section()`, from a
        line that started on `row`; `last` is the row where the final line
        started. */
    method Lines(row: nat) returns (last: nat)
      requires Valid() && P.Drawing(State())
      modifies this, lexer, board
      ensures board == old(board)
      ensures Valid() && (State(), last) == P.Rows(tokens, old(State()), row)
    {
      last := row;
      ghost var goal := P.Rows(tokens, State(), row);
      while true
        invariant Valid() && P.Drawing(State()) && board == old(board)
        invariant P.Rows(tokens, State(), last) == goal
        decreases P.Rest(tokens, State())
      {
        var dollar := Accept(Dollar);
        if !dollar {
          break;
        }
        CloseRow(last);
        last := position.row;
        LinePattern();
      }
    }

    /** `rtl_file()`. */
    method RtlFile()
      requires Valid()
      modifies this, lexer, board
      ensures Valid() && State() == P.RtlFile(tokens, old(State()))
    {
      ghost var st := State();
      Comments();
      HeaderSection();
      assert State() == P.HeaderSection(tokens, P.Comments(tokens, st));
      assert errorCount == 0 ==> P.Drawing(State());
      PatternSection();
    }

    /** `parse_stream()`: the board when no error was counted, `null`
        otherwise. */
    method ParseStream() returns (result: Board?)
      requires Valid() && State() == P.InitialState()
      modifies this, lexer
      ensures Valid()
      ensures result == null <==> P.ParseTokens(tokens).0 == None
      ensures result != null ==> result.Valid() && Some(result.ToGrid()) == P.ParseTokens(tokens).0
      ensures result != null ==> result.born == {3} && result.survives == {2, 3}
      ensures log == P.ParseTokens(tokens).1 && printed == P.Printed(log)
    {
      NextSymbol();
      RtlFile();
      if errorCount == 0 {
        result := board;
      } else {
        result := null;
      }
    }
  }

  /** `parse_from_stdin()` and `parse_from_file()` on the text `input`:
      the board, and the lines written to the error stream. */
  method ParseFrom(input: seq<char>) returns (result: Board?, errorStream: seq<P.Line>)
    ensures result == null <==> P.ParseStream(input).0 == None
    ensures result != null ==> result.Valid() && Some(result.ToGrid()) == P.ParseStream(input).0
    ensures result != null ==> result.born == {3} && result.survives == {2, 3}
    ensures errorStream == P.Printed(P.ParseStream(input).1)
  {
    var parser := new Parser(input);
    result := parser.ParseStream();
    errorStream := parser.printed;
  }
}
