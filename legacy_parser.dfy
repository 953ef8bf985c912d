// The class `Parser` of the earlier parser at the root of the repository
// (rtl_parser.cpp:245-474), one method per member function, each proved to
// leave the parser in the state the function of the same name in module
// `LegacyParsing` describes.
//
// The field `halt` is not a field of the C++ class: it records that the
// program has stopped (in `lex()` or in `std::stoi`). The C++ code never
// comes back from such a stop; here the method that stopped returns, and
// every later `next_symbol()` reads nothing more.

module LegacyRtlParser {
  import opened Wrappers
  import opened Tokens
  import Lexing
  import opened LegacyLexing
  import opened Cursor
  import opened Grids
  import opened Boards
  import P = Parsing
  import L = LegacyParsing
  import R = RtlParser

  class Parser {
    /** `m_lex`. */
    const lexer: LegacyLexer
    /** Every token the lexer hands out, and how the run ends. */
    ghost const tokens: seq<Token>
    ghost const ending: Ending
    /** The lexer's stream before each token, and before the last call. */
    ghost const streams: seq<Lexing.Stream>
    /** How many tokens it has handed out. */
    ghost var next: nat
    /** `m_board`; `null` until the header has built it. */
    var board: Board?
    var symbol: TokenKind
    var currentText: seq<char>
    var cachedText: seq<char>
    var x: int
    var y: int
    var born: set<int>
    var survives: set<int>
    var errorCount: nat
    var position: Position
    /** Whether the program still runs. */
    var halt: L.Halt
    /** The lines written to `std::cerr`: one per `error` and `warning`. */
    var printed: seq<P.Diagnostic>

    /** While the program runs, the lexer `l` has handed out the first `n`
        tokens of `ts` (and, for a run that ends in `eof`, possibly `eof`
        as well); `ss` are its streams before each. */
    static ghost predicate Synced(l: LegacyLexer, ts: seq<Token>, e: Ending, ss: seq<Lexing.Stream>,
                                  n: nat, h: L.Halt)
      reads l, l.stream
    {
      l.Valid() && Table(l.stream.input, ts, e, ss) && n <= |ts| &&
      (h == L.Running ==>
         l.stream.State() == ss[n] ||
         (n == |ts| && e == Finished && l.stream.State() == Lexing.Stream(|l.stream.input|, true)))
    }

    /** The parser's fields as a `LegacyParsing.LState`. */
    ghost function State(): L.LState
      reads this, board
    {
      L.LState(next, symbol, currentText, cachedText, x, y, born, survives, errorCount, printed,
               if board == null then None else Some(board.ToGrid()), position, halt)
    }

    /** The lexer is in step with the token list, the error count counts
        the errors written, and the board, once built, is well shaped and
        keeps the rules of its constructor: this parser never calls
        `set_rules`, so the rules read from the header never reach it. */
    ghost predicate Valid()
      reads this, lexer, lexer.stream, board
    {
      Synced(lexer, tokens, ending, streams, next, halt) &&
      P.ErrorCount(printed) == errorCount &&
      (board != null ==> board.Valid() && board.born == {3} && board.survives == {2, 3})
    }

    /** `Parser()` followed by `m_lex.emplace(stream)`. */
    constructor (input: seq<char>)
      ensures Valid() && lexer.stream.input == input && State() == L.InitialState()
      ensures (tokens, ending) == Tokenize(input, Lexing.Stream(0, false))
      ensures fresh(lexer) && fresh(lexer.stream)
    {
      lexer := new LegacyLexer(input);
      tokens := Tokenize(input, Lexing.Stream(0, false)).0;
      ending := Tokenize(input, Lexing.Stream(0, false)).1;
      streams := Streams(input, Lexing.Stream(0, false));
      TableOf(input, Lexing.Stream(0, false));
      next := 0;
      board := null;
      symbol := Eof;
      currentText := "";
      cachedText := "";
      x := 0;
      y := 0;
      born := {};
      survives := {};
      errorCount := 0;
      position := Begin();
      halt := L.Running;
      printed := [];
    }

    /** `error(message)`: always written, always counted. */
    method Error()
      requires Valid()
      modifies this
      ensures board == old(board)
      ensures Valid() && State() == L.ReportError(old(State()))
    {
      ghost var s := State();
      P.LogSnoc(printed, P.Reported(P.UnexpectedToken));
      printed, errorCount := printed + [P.Reported(P.UnexpectedToken)], errorCount + 1;
      assert State() == s.(errors := s.errors + 1, log := s.log + [P.Reported(P.UnexpectedToken)]);
    }

    /** `warning(message)`. */
    method Warning(w: P.Caution)
      requires Valid()
      modifies this
      ensures board == old(board)
      ensures Valid() && State() == L.ReportWarning(old(State()), w)
    {
      ghost var s := State();
      P.LogSnoc(printed, P.Warned(w));
      printed := printed + [P.Warned(w)];
      assert State() == s.(log := s.log + [P.Warned(w)]);
    }

    /** A throw from `std::stoi`. */
    method Crash()
      requires Valid()
      modifies this
      ensures board == old(board)
      ensures Valid() && State() == L.Crash(old(State()))
    {
      if halt == L.Running {
        halt := L.Crashed;
      }
    }

    /** `next_symbol()`. */
    method NextSymbol()
      requires Valid()
      modifies this, lexer.stream
      ensures board == old(board)
      ensures Valid() && State() == L.NextSymbol(tokens, ending, old(State()))
    {
      if halt != L.Running {
        symbol, currentText, cachedText := Eof, cachedText, "";
      } else {
        ReadSymbol();
      }
    }

    /** `next_symbol()` while the program runs: one call of `lex()`. */
    method ReadSymbol()
      requires Valid() && halt == L.Running
      modifies this, lexer.stream
      ensures board == old(board)
      ensures Valid() && State() == L.NextSymbol(tokens, ending, old(State()))
    {
      TableStep(lexer.stream.input, tokens, ending, streams, next, lexer.stream.State());
      var r := lexer.Lex();
      match r
      case Lexed(t, _) => TakeToken(t);
      case Hang => TakeStop(L.Hung);
      case Abort => TakeStop(L.Aborted);
    }

    /** Everything `Valid` says but where the lexer's stream is. */
    ghost predicate Kept()
      reads this, lexer, lexer.stream, board
    {
      lexer.Valid() && Table(lexer.stream.input, tokens, ending, streams) && next <= |tokens| &&
      P.ErrorCount(printed) == errorCount &&
      (board != null ==> board.Valid() && board.born == {3} && board.survives == {2, 3})
    }

    /** The fields `next_symbol()` sets from the token `lex()` handed out. */
    method TakeToken(t: Token)
      requires Kept() && halt == L.Running
      requires next < |tokens| ==> t == tokens[next] && lexer.stream.State() == streams[next + 1]
      requires next == |tokens| ==>
        t == Token(Eof, "") && ending == Finished && lexer.stream.State() == Lexing.Stream(|lexer.stream.input|, true)
      modifies this
      ensures board == old(board)
      ensures Valid() && State() == L.NextSymbol(tokens, ending, old(State()))
    {
      if t.kind != Eof {
        next := next + 1;
      }
      symbol, currentText, cachedText := t.kind, cachedText, t.text;
    }

    /** The fields when `lex()` hangs or aborts, at the end of the run. */
    method TakeStop(h: L.Halt)
      requires Kept() && halt == L.Running && next == |tokens| && h == L.Stop(ending) && h != L.Running
      modifies this
      ensures board == old(board)
      ensures Valid() && State() == L.NextSymbol(tokens, ending, old(State()))
    {
      symbol, currentText, cachedText, halt := Eof, cachedText, "", h;
    }

    /** `accept(symbol)`. */
    method Accept(k: TokenKind) returns (accepted: bool)
      requires Valid()
      modifies this, lexer.stream
      ensures board == old(board)
      ensures Valid()
      ensures accepted == L.Accept(tokens, ending, old(State()), k).0
      ensures State() == L.Accept(tokens, ending, old(State()), k).1
    {
      if symbol == k {
        NextSymbol();
        return true;
      }
      return false;
    }

    /** `expect(symbol)` and `unexpected_token`. */
    method Expect(k: TokenKind) returns (found: bool)
      requires Valid()
      modifies this, lexer.stream
      ensures board == old(board)
      ensures Valid()
      ensures found == L.Expect(tokens, ending, old(State()), k).0
      ensures State() == L.Expect(tokens, ending, old(State()), k).1
    {
      found := Accept(k);
      if !found {
        Error();
      }
    }

    /** `expect(_EQUALS); expect(_NUMBER);` and `std::stoi(m_current_text)`. */
    method AssignedNumber() returns (v: Option<nat>)
      requires Valid()
      modifies this, lexer.stream
      ensures board == old(board)
      ensures Valid()
      ensures v == L.AssignedNumber(tokens, ending, old(State())).0
      ensures State() == L.AssignedNumber(tokens, ending, old(State())).1
    {
      KeyAndNumber(Equals);
      v := L.Stoi(currentText);
    }

    /** The `x` or `y` branch of `value_description()`, after `accept`. */
    method SizeValue(k: TokenKind)
      requires Valid()
      modifies this, lexer.stream
      ensures board == old(board)
      ensures Valid() && State() == L.SizeValue(tokens, ending, old(State()), k)
    {
      var v := AssignedNumber();
      SetSize(v, k);
    }

    /** The assignment of the number read to `m_x` or `m_y`. */
    method SetSize(v: Option<nat>, k: TokenKind)
      requires Valid()
      modifies this
      ensures board == old(board)
      ensures Valid() && State() == L.SetSize(old(State()), v, k)
    {
      if v.None? {
        Crash();
      } else if k == X {
        x := v.value;
      } else {
        y := v.value;
      }
    }

    /** `value_description()`. The `accept(_X)` and `accept(_Y)` are one
        test of the current symbol here: an `accept` that fails changes
        nothing. */
    method ValueDescription()
      requires Valid()
      modifies this, lexer.stream
      ensures board == old(board)
      ensures Valid() && State() == L.ValueDescription(tokens, ending, old(State()))
    {
      var k := symbol;
      if k == X || k == Y {
        NextSymbol();
        SizeValue(k);
      } else {
        var found := Expect(Rule);
        found := Expect(Equals);
        RuleDescription();
      }
    }

    /** `expect(k); expect(_NUMBER);` and the numbers of the characters
        read. */
    method RuleHalf(k: TokenKind) returns (digits: set<int>)
      requires Valid()
      modifies this, lexer.stream
      ensures board == old(board)
      ensures Valid()
      ensures digits == L.RuleHalf(tokens, ending, old(State()), k).0
      ensures State() == L.RuleHalf(tokens, ending, old(State()), k).1
    {
      KeyAndNumber(k);
      digits := R.Parser.InsertDigits({}, currentText);
    }

    /** `expect(k); expect(_NUMBER);`. */
    method KeyAndNumber(k: TokenKind)
      requires Valid()
      modifies this, lexer.stream
      ensures board == old(board)
      ensures Valid() && State() == L.KeyAndNumber(tokens, ending, old(State()), k)
    {
      var found := Expect(k);
      found := Expect(Number);
    }

    /** `rule_description()`: `B`, then the survive part. */
    method RuleDescription()
      requires Valid()
      modifies this, lexer.stream
      ensures board == old(board)
      ensures Valid() && State() == L.RuleDescription(tokens, ending, old(State()))
    {
      BornHalf();
      SurvivePart();
    }

    /** `expect(_B); expect(_NUMBER);` and the digits into `m_born`. */
    method BornHalf()
      requires Valid()
      modifies this, lexer.stream
      ensures board == old(board)
      ensures Valid() && State() == L.BornHalf(tokens, ending, old(State()))
    {
      var digits := RuleHalf(B);
      ghost var s1 := State();
      born := born + digits;
      assert State() == s1.(born := s1.born + digits);
    }

    /** The part of `rule_description()` after the born digits. */
    method SurvivePart()
      requires Valid()
      modifies this, lexer.stream
      ensures board == old(board)
      ensures Valid() && State() == L.SurvivePart(tokens, ending, old(State()))
    {
      var found := Expect(Slash);
      SurviveHalf();
    }

    /** `expect(_S); expect(_NUMBER);` and the digits into `m_survives`. */
    method SurviveHalf()
      requires Valid()
      modifies this, lexer.stream
      ensures board == old(board)
      ensures Valid() && State() == L.SurviveHalf(tokens, ending, old(State()))
    {
      var digits := RuleHalf(S);
      ghost var s1 := State();
      survives := survives + digits;
      assert State() == s1.(survives := s1.survives + digits);
    }

    /** The `while (accept(_COMMA)) value_description();` loop. */
    method Statements()
      requires Valid()
      modifies this, lexer.stream
      ensures board == old(board)
      ensures Valid() && State() == L.Statements(tokens, ending, old(State()))
    {
      ghost var goal := L.Statements(tokens, ending, State());
      while true
        invariant Valid() && board == old(board) && L.Statements(tokens, ending, State()) == goal
        decreases L.Rest(tokens, State())
      {
        var comma := Accept(Comma);
        if !comma {
          return;
        }
        ValueDescription();
      }
    }

    /** `header_section()`. */
    method HeaderSection()
      requires Valid()
      modifies this, lexer.stream
      ensures fresh(board)
      ensures Valid() && State() == L.HeaderSection(tokens, ending, old(State()))
    {
      if symbol == X || symbol == Y || symbol == Rule {
        ValueDescription();
        Statements();
      }
      HeaderDefaults();
    }

    /** The end of `header_section()`: the defaults, then
        `m_board = Board(m_y, m_x)` and `m_position = m_board->begin()`. */
    method HeaderDefaults()
      requires Valid()
      modifies this
      ensures fresh(board)
      ensures Valid() && State() == L.HeaderDefaults(old(State()))
    {
      ghost var s0 := State();
      SizeDefaults();
      RuleDefaults();
      ghost var s1 := State();
      assert s1 == L.RuleDefaults(L.SizeDefaults(s0));
      assert L.HeaderDefaults(s0) == s1.(grid := Some(Grid(s1.y, s1.x, DeadCells(s1.y, s1.x))), position := Begin());
      NewBoard();
    }

    /** `m_board = Board(m_y, m_x)` and `m_position = m_board->begin()`. */
    method NewBoard()
      requires Valid() && x >= 1 && y >= 1
      modifies this
      ensures fresh(board) && x == old(x) && y == old(y)
      ensures Valid() && State() == old(State()).(grid := Some(Grid(y, x, DeadCells(y, x))), position := Begin())
    {
      var b := new Board(y, x);
      board := b;
      position := Begin();
    }

    /** The `m_x` and `m_y` defaults of `header_section()`. */
    method SizeDefaults()
      requires Valid()
      modifies this
      ensures board == old(board)
      ensures Valid() && State() == L.SizeDefaults(old(State()))
    {
      WidthDefault();
      HeightDefault();
    }

    /** The `m_x` default. */
    method WidthDefault()
      requires Valid()
      modifies this
      ensures board == old(board)
      ensures Valid() && State() == L.WidthDefault(old(State()))
    {
      if x <= 0 {
        x := 10;
        Warning(P.XNotSet);
      }
    }

    /** The `m_y` default. */
    method HeightDefault()
      requires Valid()
      modifies this
      ensures board == old(board)
      ensures Valid() && State() == L.HeightDefault(old(State()))
    {
      if y <= 0 {
        y := 10;
        Warning(P.YNotSet);
      }
    }

    /** The rule defaults of `header_section()`. */
    method RuleDefaults()
      requires Valid()
      modifies this
      ensures board == old(board)
      ensures Valid() && State() == L.RuleDefaults(old(State()))
    {
      if born == {} || survives == {} {
        Warning(P.RuleNotSet);
        AddDefaultRules();
      }
    }

    /** `m_born.insert(3); m_survives.insert({2, 3});`. */
    method AddDefaultRules()
      requires Valid()
      modifies this
      ensures board == old(board)
      ensures Valid() && State() == L.AddDefaultRules(old(State()))
    {
      born, survives := born + {3}, survives + {2, 3};
    }

    /** `comment_section()`. */
    method Comments()
      requires Valid()
      modifies this, lexer.stream
      ensures board == old(board)
      ensures Valid() && State() == L.Comments(tokens, ending, old(State()))
    {
      ghost var goal := L.Comments(tokens, ending, State());
      while true
        invariant Valid() && board == old(board) && L.Comments(tokens, ending, State()) == goal
        decreases L.Rest(tokens, State())
      {
        var comment := Accept(Comment);
        if !comment {
          return;
        }
      }
    }

    /** One `add_at(m_position++)` (for `alive`) or `kill_at(m_position++)`. */
    method Step(alive: bool)
      requires Valid() && L.Drawing(State())
      modifies this, board
      ensures board == old(board)
      ensures Valid() && L.Drawing(State())
      ensures board.ToGrid() == old(board.ToGrid()).(cells := SetCell(old(board.cells), board.height, board.width,
                                                                     old(position.row), old(position.col), alive))
      ensures position == Next(old(position), board.width)
      ensures State() == old(State()).(grid := Some(board.ToGrid()), position := position)
    {
      ghost var st0 := State();
      var (at, after) := PostIncrement(position, board.width);
      if alive {
        board.AddAtPosition(at);
      } else {
        board.KillAtPosition(at);
      }
      ghost var s1 := State();
      assert s1 == st0.(grid := Some(board.ToGrid()));
      position := after;
      assert State() == s1.(position := position);
    }

    /** `while (repetitions--) m_board->add_at(m_position++);` for `alive`,
        the same with `kill_at` otherwise. */
    method Repeat(repetitions: nat, alive: bool)
      requires Valid() && L.Drawing(State())
      modifies this, board
      ensures board == old(board)
      ensures Valid() && State() == L.Put(old(State()), repetitions, alive)
    {
      ghost var st0 := State();
      ghost var g0 := board.ToGrid();
      ghost var p0 := position;
      assert st0.grid == Some(g0);
      var left: nat := repetitions;
      while left > 0
        invariant Valid() && left <= repetitions && board == old(board) && board.Valid()
        invariant board.born == {3} && board.survives == {2, 3}
        invariant board.ToGrid() == P.Fill(g0, p0, repetitions - left, alive).0
        invariant position == P.Fill(g0, p0, repetitions - left, alive).1
        invariant State() == st0.(grid := Some(board.ToGrid()), position := position)
      {
        Step(alive);
        left := left - 1;
      }
      assert st0 == old(State());
    }

    /** `pattern()`. */
    method Pattern()
      requires Valid() && L.Drawing(State())
      modifies this, lexer.stream, board
      ensures board == old(board)
      ensures Valid() && State() == L.Pattern(tokens, ending, old(State()))
    {
      var repetitions := 1;
      var number := Accept(Number);
      if number {
        var v := L.Stoi(currentText);
        if v.None? {
          Crash();
          repetitions := 0;
        } else {
          repetitions := v.value;
        }
      }
      Run(repetitions);
    }

    /** The end of `pattern()`: `b` kills, anything else expects `o` and
        adds. */
    method Run(repetitions: nat)
      requires Valid() && L.Drawing(State())
      modifies this, lexer.stream, board
      ensures board == old(board)
      ensures Valid() && State() == L.Run(tokens, ending, old(State()), repetitions)
    {
      var dead := Accept(B);
      if dead {
        Repeat(repetitions, false);
      } else {
        var found := Expect(O);
        Repeat(repetitions, true);
      }
    }

    /** `line_pattern()`. */
    method LinePattern()
      requires Valid() && L.Drawing(State())
      modifies this, lexer.stream, board
      ensures board == old(board)
      ensures Valid() && State() == L.LinePattern(tokens, ending, old(State()))
    {
      Pattern();
      ghost var goal := L.MorePatterns(tokens, ending, State());
      while symbol == Number || symbol == B || symbol == O
        invariant Valid() && L.Drawing(State()) && board == old(board)
        invariant L.MorePatterns(tokens, ending, State()) == goal
        decreases L.Rest(tokens, State())
      {
        Pattern();
      }
    }

    /** `finnish_line()`: the number of cells killed. */
    method FinishLine() returns (added: int)
      requires Valid() && L.Drawing(State())
      modifies this, board
      ensures board == old(board)
      ensures Valid() && State() == L.FinishRow(old(State()))
      ensures added == if old(position.col) == 0 then 0 else board.width - old(position.col)
    {
      if position.col == 0 {
        return 0;
      }
      ghost var st0 := State();
      ghost var g0 := board.ToGrid();
      ghost var p0 := position;
      assert st0.grid == Some(g0);
      var startRow := position.row;
      added := 0;
      while startRow == position.row
        invariant Valid() && board == old(board) && board != null && board.Valid()
        invariant 0 <= added <= board.width - p0.col
        invariant board.born == {3} && board.survives == {2, 3}
        invariant position == if added < board.width - p0.col then Position(p0.row, p0.col + added)
                               else Position(p0.row + 1, 0)
        invariant board.ToGrid() == P.Fill(g0, p0, added, false).0
        invariant position == P.Fill(g0, p0, added, false).1
        invariant State() == st0.(grid := Some(board.ToGrid()), position := position)
        decreases board.width - p0.col - added
      {
        added := added + 1;
        Step(false);
      }
      assert st0 == old(State());
    }

    /** `pattern_section()`. */
    method PatternSection()
      requires Valid() && L.Drawing(State())
      modifies this, lexer.stream, board
      ensures board == old(board)
      ensures Valid() && State() == L.PatternSection(tokens, ending, old(State()))
    {
      LinePattern();
      Lines();
      var added := FinishLine();
      var found := Expect(ExclamationMark);
    }

    /** The `while (accept(_DOLAR))` loop of `pattern_section()`. */
    method Lines()
      requires Valid() && L.Drawing(State())
      modifies this, lexer.stream, board
      ensures board == old(board)
      ensures Valid() && State() == L.Rows(tokens, ending, old(State()))
    {
      ghost var goal := L.Rows(tokens, ending, State());
      while true
        invariant Valid() && L.Drawing(State()) && board == old(board)
        invariant L.Rows(tokens, ending, State()) == goal
        decreases L.Rest(tokens, State())
      {
        ghost var s0 := State();
        var dollar := Accept(Dollar);
        if !dollar {
          break;
        }
        ghost var s1 := State();
        assert s1 == L.NextSymbol(tokens, ending, s0) && L.Rest(tokens, s1) < L.Rest(tokens, s0);
        var added := FinishLine();
        LinePattern();
        assert State() == L.LinePattern(tokens, ending, L.FinishRow(s1));
      }
    }

    /** `rtl_file()`. */
    method RtlFile()
      requires Valid()
      modifies this, lexer.stream
      ensures fresh(board)
      ensures Valid() && State() == L.RtlFile(tokens, ending, old(State()))
    {
      ghost var st := State();
      Comments();
      HeaderSection();
      assert State() == L.HeaderSection(tokens, ending, L.Comments(tokens, ending, st));
      PatternSection();
    }

    /** `parse_stream()`: the board, whatever errors were reported, when
        the program did not stop on the way. */
    method ParseStream() returns (result: Board)
      requires Valid() && State() == L.InitialState()
      modifies this, lexer.stream
      ensures Valid() && fresh(result)
      ensures var r := L.ParseTokens(tokens, ending);
        (r.Parsed? <==> halt == L.Running) &&
        (r.Parsed? ==> result.Valid() && result.ToGrid() == r.grid && printed == r.log) &&
        (r.Stopped? ==> halt == r.why)
      ensures result.born == {3} && result.survives == {2, 3}
    {
      NextSymbol();
      RtlFile();
      result := board;
    }
  }

  /** `parse_from_file()` and `parse_from_stdin()` on the text `input`:
      the board and the lines written to the error stream, unless the
      program stopped (then `halt` says why, and the board is meaningless). */
  method ParseFrom(input: seq<char>) returns (result: Board, errorStream: seq<P.Diagnostic>, halt: L.Halt)
    ensures var r := L.ParseStream(input);
      (r.Parsed? <==> halt == L.Running) &&
      (r.Parsed? ==> result.Valid() && result.ToGrid() == r.grid && errorStream == r.log) &&
      (r.Stopped? ==> halt == r.why)
    ensures result.born == {3} && result.survives == {2, 3}
  {
    var parser := new Parser(input);
    result := parser.ParseStream();
    errorStream := parser.printed;
    halt := parser.halt;
  }
}
