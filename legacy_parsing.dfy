// What the earlier recursive-descent parser at the root of the repository
// (rtl_parser.cpp:222-474) does, as functions on the parser's state, in the
// style of module `Parsing`: the functions take the list of tokens the
// lexer hands out (`LegacyLexing.Tokenize`), how that run ends, and the
// parser's fields.
//
// This version differs from the one in src/ in what it accepts and in how
// it recovers:
//  - the header holds only `x = n`, `y = n` and `rule = Bn/Sn`;
//  - `expect` reports one error and consumes nothing when the symbol is
//    wrong;
//  - the board is always built (a size of 0 or less becomes 10, with a
//    warning) and always returned, however many errors were reported;
//  - rows are not checked against the board's width.
// The program can also stop without returning: `lex()` may never return
// or may abort, and `std::stoi` throws when `expect(_NUMBER)` failed and
// the text it reads is not a number. `halt` records the first of these;
// from then on the state is no longer that of a running program, and
// `ParseTokens` reports only the stop.

module LegacyParsing {
  import opened Wrappers
  import opened Text
  import opened Tokens
  import Lexing
  import opened LegacyLexing
  import opened Cursor
  import opened Grids
  import P = Parsing

  /** Whether the program is still running, and if not, why it stopped:
      `lex()` never returned, `assert(0)` aborted, or `std::stoi` threw. */
  datatype Halt = Running | Hung | Aborted | Crashed

  /** What `parse_stream()` gives: the board and every error and warning
      reported, or the reason it never returned. */
  datatype Outcome = Parsed(grid: Grid, log: seq<P.Diagnostic>) | Stopped(why: Halt)

  /** The parser's fields: how many tokens the lexer has handed out,
      `m_current_symbol`, `m_current_text`, `m_cached_text`, `m_x`, `m_y`,
      `m_born`, `m_survives`, `m_error_count`, every error and warning
      reported, the board's grid (`m_board`), `m_position`, and whether the
      program still runs. */
  datatype LState = LState(
    next: nat,
    symbol: TokenKind,
    currentText: seq<char>,
    cachedText: seq<char>,
    x: int,
    y: int,
    born: set<int>,
    survives: set<int>,
    errors: nat,
    log: seq<P.Diagnostic>,
    grid: Option<Grid>,
    position: Position,
    halt: Halt)

  /** The tokens not yet read, plus one while the current symbol is not
      `eof`. */
  function Rest(toks: seq<Token>, st: LState): nat
    requires st.next <= |toks|
  {
    |toks| - st.next + (if st.symbol == Eof then 0 else 1)
  }

  /** `m_error_count` counts the errors reported. */
  predicate Counted(st: LState) {
    P.ErrorCount(st.log) == st.errors
  }

  /** How a run of the lexer that ends as `e` stops the program when the
      parser asks for the token after the last one. */
  function Stop(e: Ending): Halt {
    match e
    case Finished => Running
    case Hangs => Hung
    case Aborts => Aborted
  }

  /** The program stops at most once: from `a` to `b` nothing changes, or
      a running program stops because of the lexer or `std::stoi`. */
  predicate HaltStep(e: Ending, a: Halt, b: Halt) {
    b == a || (a == Running && (b == Stop(e) || b == Crashed))
  }

  /** What every step keeps: the token index stays within the list, no
      token is read twice, the error count never goes down and keeps
      counting the errors reported, and the program stops at most once. */
  predicate Progress(toks: seq<Token>, e: Ending, st: LState, r: LState)
    requires st.next <= |toks|
  {
    r.next <= |toks| && Rest(toks, r) <= Rest(toks, st) &&
    st.errors <= r.errors && (Counted(st) ==> Counted(r)) && HaltStep(e, st.halt, r.halt)
  }

  /** Two steps that each keep `Progress` keep it together. */
  lemma ProgressChain(toks: seq<Token>, e: Ending, a: LState, b: LState, c: LState)
    requires a.next <= |toks| && b.next <= |toks|
    requires Progress(toks, e, a, b) && Progress(toks, e, b, c)
    ensures Progress(toks, e, a, c)
  {
  }

  /** `error(message)`: one more error, always printed. */
  function ReportError(st: LState): (r: LState)
    ensures r == st.(errors := st.errors + 1, log := st.log + [P.Reported(P.UnexpectedToken)])
    ensures Counted(st) ==> Counted(r)
  {
    P.LogSnoc(st.log, P.Reported(P.UnexpectedToken));
    st.(errors := st.errors + 1, log := st.log + [P.Reported(P.UnexpectedToken)])
  }

  /** `warning(message)`: reported, never counted. */
  function ReportWarning(st: LState, w: P.Caution): (r: LState)
    ensures r == st.(log := st.log + [P.Warned(w)])
    ensures Counted(st) ==> Counted(r)
  {
    P.LogSnoc(st.log, P.Warned(w));
    st.(log := st.log + [P.Warned(w)])
  }

  /** A throw from `std::stoi`: the program stops, unless it already has. */
  function Crash(st: LState): (r: LState)
    ensures r == st.(halt := r.halt)
    ensures r.halt == if st.halt == Running then Crashed else st.halt
  {
    st.(halt := if st.halt == Running then Crashed else st.halt)
  }

  /** `next_symbol()`: the next token becomes current and the cached text
      moves to `m_current_text`. Past the last token the lexer answers
      `eof`, never returns or aborts, as the run ends. Once the program
      has stopped, nothing more is read. */
  function NextSymbol(toks: seq<Token>, e: Ending, st: LState): (r: LState)
    requires st.next <= |toks|
    ensures Progress(toks, e, st, r)
    ensures st.symbol != Eof ==> Rest(toks, r) < Rest(toks, st)
    ensures r == st.(next := r.next, symbol := r.symbol, currentText := st.cachedText,
                     cachedText := r.cachedText, halt := r.halt)
    ensures st.halt == Running && st.next < |toks| ==>
      r.next == st.next + 1 && r.symbol == toks[st.next].kind && r.cachedText == toks[st.next].text && r.halt == Running
    ensures st.halt == Running && st.next == |toks| ==> r.symbol == Eof && r.halt == Stop(e)
  {
    if st.halt != Running then st.(symbol := Eof, currentText := st.cachedText, cachedText := "")
    else if st.next < |toks| then
      st.(next := st.next + 1, symbol := toks[st.next].kind,
          currentText := st.cachedText, cachedText := toks[st.next].text)
    else st.(symbol := Eof, currentText := st.cachedText, cachedText := "", halt := Stop(e))
  }

  /** `accept(symbol)`: consumes the current token when it is `k`. */
  function Accept(toks: seq<Token>, e: Ending, st: LState, k: TokenKind): (r: (bool, LState))
    requires st.next <= |toks|
    ensures r.0 <==> st.symbol == k
    ensures r.1 == if r.0 then NextSymbol(toks, e, st) else st
  {
    if st.symbol == k then (true, NextSymbol(toks, e, st)) else (false, st)
  }

  /** `expect(symbol)`: consumes `k` when it is current; otherwise one
      "unexpected token" error and nothing consumed, so the rule that
      called it carries on from the same symbol. */
  function Expect(toks: seq<Token>, e: Ending, st: LState, k: TokenKind): (r: (bool, LState))
    requires st.next <= |toks|
    ensures Progress(toks, e, st, r.1)
    ensures r.0 <==> st.symbol == k
    ensures r.1 == if r.0 then NextSymbol(toks, e, st) else ReportError(st)
    ensures !r.0 ==> r.1.next == st.next && r.1.symbol == st.symbol && r.1.errors == st.errors + 1
  {
    if st.symbol == k then (true, NextSymbol(toks, e, st)) else (false, ReportError(st))
  }

  /** `std::stoi(text)`: the value of the digits the text starts with, or
      nothing when it does not start with one (there `std::stoi` throws).
      The token texts this parser can meet never start with a blank or a
      sign. */
  function Stoi(text: seq<char>): (r: Option<nat>)
    ensures r.Some? <==> |text| > 0 && IsDigit(text[0])
    ensures |text| > 0 && AllDigits(text) ==> r == Some(DigitsValue(text))
  {
    var j := Lexing.DigitEnd(text, 0);
    if j == 0 then None
    else
      assert AllDigits(text) ==> j == |text|;
      assert text[..|text|] == text;
      Some(DigitsValue(text[..j]))
  }

  /** `expect(_EQUALS); expect(_NUMBER);` and `std::stoi(m_current_text)`,
      which reads the last token consumed, whichever it was. */
  function AssignedNumber(toks: seq<Token>, e: Ending, st: LState): (r: (Option<nat>, LState))
    requires st.next <= |toks|
    ensures Progress(toks, e, st, r.1)
    ensures r.1 == st.(next := r.1.next, symbol := r.1.symbol, currentText := r.1.currentText,
                       cachedText := r.1.cachedText, errors := r.1.errors, log := r.1.log, halt := r.1.halt)
    ensures r.0 == Stoi(r.1.currentText)
  {
    var s := KeyAndNumber(toks, e, st, Equals);
    (Stoi(s.currentText), s)
  }

  /** The `x = n` or `y = n` branch of `value_description()`, after
      `accept(_X)` (`k` is `X`) or `accept(_Y)`: the size is set to the
      number, or `std::stoi` throws. */
  function SizeValue(toks: seq<Token>, e: Ending, st: LState, k: TokenKind): (r: LState)
    requires st.next <= |toks|
    ensures Progress(toks, e, st, r)
    ensures r.grid == st.grid && r.position == st.position && r.born == st.born && r.survives == st.survives
    ensures k == X ==> r.y == st.y
    ensures k != X ==> r.x == st.x
  {
    var (v, s) := AssignedNumber(toks, e, st);
    SetSize(s, v, k)
  }

  /** `m_x = std::stoi(...)` (`k` is `X`) or `m_y = ...` with the value
      `v`, or the throw when there is none. */
  function SetSize(st: LState, v: Option<nat>, k: TokenKind): LState {
    if v.None? then Crash(st)
    else if k == X then st.(x := v.value)
    else st.(y := v.value)
  }

  /** `value_description()`: `x = n` or `y = n` sets that size (a later
      statement overrides an earlier one), anything else must be
      `rule = Bn/Sn`. */
  function ValueDescription(toks: seq<Token>, e: Ending, st: LState): (r: LState)
    requires st.next <= |toks|
    ensures Progress(toks, e, st, r)
    ensures r.grid == st.grid && r.position == st.position
    ensures st.symbol != X ==> r.x == st.x
    ensures st.symbol != Y ==> r.y == st.y
    ensures st.symbol == X || st.symbol == Y ==> r.born == st.born && r.survives == st.survives
  {
    if st.symbol == X || st.symbol == Y then SizeValue(toks, e, NextSymbol(toks, e, st), st.symbol)
    else RuleDescription(toks, e, Expect(toks, e, Expect(toks, e, st, Rule).1, Equals).1)
  }

  /** One half of `rule_description()`: the letter `k`, then a number,
      and the numbers `iter - '0'` of the characters of the text read
      after it (`P.DigitSet`). */
  function RuleHalf(toks: seq<Token>, e: Ending, st: LState, k: TokenKind): (r: (set<int>, LState))
    requires st.next <= |toks|
    ensures Progress(toks, e, st, r.1)
    ensures r.1 == st.(next := r.1.next, symbol := r.1.symbol, currentText := r.1.currentText,
                       cachedText := r.1.cachedText, errors := r.1.errors, log := r.1.log, halt := r.1.halt)
    ensures r.0 == P.DigitSet(r.1.currentText)
    ensures st.halt == Running && st.symbol == k && st.next < |toks| && toks[st.next].kind == Number ==>
      r.0 == P.DigitSet(toks[st.next].text) && r.1.errors == st.errors
  {
    var s := KeyAndNumber(toks, e, st, k);
    (P.DigitSet(s.currentText), s)
  }

  /** `expect(k); expect(_NUMBER);`: only the reading fields change. */
  function KeyAndNumber(toks: seq<Token>, e: Ending, st: LState, k: TokenKind): (r: LState)
    requires st.next <= |toks|
    ensures Progress(toks, e, st, r)
    ensures r == st.(next := r.next, symbol := r.symbol, currentText := r.currentText,
                     cachedText := r.cachedText, errors := r.errors, log := r.log, halt := r.halt)
    ensures st.halt == Running && st.symbol == k && st.next < |toks| && toks[st.next].kind == Number ==>
      r.currentText == toks[st.next].text && r.errors == st.errors && r.log == st.log &&
      r.next == (if st.next + 1 < |toks| then st.next + 2 else st.next + 1) &&
      (st.next + 1 < |toks| ==> r.halt == Running && r.symbol == toks[st.next + 1].kind)
  {
    Expect(toks, e, Expect(toks, e, st, k).1, Number).1
  }

  /** `rule_description()`: `B`, a number, `/`, `S`, a number; the
      characters of the text read after each number are added to the
      born and survive sets. */
  function RuleDescription(toks: seq<Token>, e: Ending, st: LState): (r: LState)
    requires st.next <= |toks|
    ensures Progress(toks, e, st, r)
    ensures r.grid == st.grid && r.position == st.position && r.x == st.x && r.y == st.y
    ensures st.born <= r.born && r.survives == st.survives + P.DigitSet(r.currentText)
  {
    var s := BornHalf(toks, e, st);
    var r := SurvivePart(toks, e, s);
    ProgressChain(toks, e, st, s, r);
    r
  }

  /** `B<n>/S<m>` read by `rule_description()` adds the digits of `n` to
      the born set and those of `m` to the survive set, with no error. */
  lemma RuleRead(toks: seq<Token>, e: Ending, st: LState)
    requires st.next <= |toks|
    requires st.halt == Running && st.symbol == B && st.next + 3 < |toks| && toks[st.next].kind == Number &&
             toks[st.next + 1].kind == Slash && toks[st.next + 2].kind == S && toks[st.next + 3].kind == Number
    ensures var r := RuleDescription(toks, e, st);
      r.born == st.born + P.DigitSet(toks[st.next].text) &&
      r.survives == st.survives + P.DigitSet(toks[st.next + 3].text) && r.errors == st.errors
  {
    var s := BornHalf(toks, e, st);
    assert s.next == st.next + 2 && s.halt == Running && s.symbol == Slash;
  }

  /** `B`, a number, and its digits added to the born set. */
  function BornHalf(toks: seq<Token>, e: Ending, st: LState): (r: LState)
    requires st.next <= |toks|
    ensures Progress(toks, e, st, r)
    ensures r.grid == st.grid && r.position == st.position && r.x == st.x && r.y == st.y
    ensures r.born == st.born + P.DigitSet(r.currentText) && r.survives == st.survives
    ensures st.halt == Running && st.symbol == B && st.next < |toks| && toks[st.next].kind == Number ==>
      r.born == st.born + P.DigitSet(toks[st.next].text) && r.errors == st.errors &&
      r.currentText == toks[st.next].text &&
      (st.next + 1 < |toks| ==> r.next == st.next + 2 && r.halt == Running && r.symbol == toks[st.next + 1].kind)
  {
    var (born, s) := RuleHalf(toks, e, st, B);
    s.(born := s.born + born)
  }

  /** The part of `rule_description()` after the born digits. */
  function SurvivePart(toks: seq<Token>, e: Ending, st: LState): (r: LState)
    requires st.next <= |toks|
    ensures Progress(toks, e, st, r)
    ensures r.grid == st.grid && r.position == st.position && r.x == st.x && r.y == st.y
    ensures r.born == st.born && r.survives == st.survives + P.DigitSet(r.currentText)
    ensures st.halt == Running && st.symbol == Slash && st.next + 1 < |toks| &&
            toks[st.next].kind == S && toks[st.next + 1].kind == Number ==>
      r.survives == st.survives + P.DigitSet(toks[st.next + 1].text) && r.errors == st.errors
  {
    SurviveHalf(toks, e, Expect(toks, e, st, Slash).1)
  }

  /** `S`, a number, and its digits added to the survive set. */
  function SurviveHalf(toks: seq<Token>, e: Ending, st: LState): (r: LState)
    requires st.next <= |toks|
    ensures Progress(toks, e, st, r)
    ensures r.grid == st.grid && r.position == st.position && r.x == st.x && r.y == st.y
    ensures r.born == st.born && r.survives == st.survives + P.DigitSet(r.currentText)
    ensures st.halt == Running && st.symbol == S && st.next < |toks| && toks[st.next].kind == Number ==>
      r.survives == st.survives + P.DigitSet(toks[st.next].text) && r.errors == st.errors
  {
    var (survives, s) := RuleHalf(toks, e, st, S);
    s.(survives := s.survives + survives)
  }

  /** The `while (accept(_COMMA)) value_description();` loop. */
  function Statements(toks: seq<Token>, e: Ending, st: LState): (r: LState)
    requires st.next <= |toks|
    ensures Progress(toks, e, st, r)
    ensures r.grid == st.grid && r.position == st.position
    ensures r.symbol != Comma
    decreases Rest(toks, st)
  {
    if st.symbol == Comma then Statements(toks, e, ValueDescription(toks, e, NextSymbol(toks, e, st)))
    else st
  }

  /** The end of `header_section()`: a size of 0 or less becomes 10 and an
      empty born or survive set gets 3 added to born and 2 and 3 to
      survive, each with a warning; then the board `Board(m_y, m_x)` is
      built, with the cursor at its first cell. No error is reported. */
  function HeaderDefaults(st: LState): (r: LState)
    ensures r.x == (if st.x <= 0 then 10 else st.x) && r.y == (if st.y <= 0 then 10 else st.y)
    ensures st.born != {} && st.survives != {} ==> r.born == st.born && r.survives == st.survives
    ensures st.born == {} || st.survives == {} ==> r.born == st.born + {3} && r.survives == st.survives + {2, 3}
    ensures r.grid == Some(Grid(r.y, r.x, DeadCells(r.y, r.x))) && r.position == Begin()
    ensures r.log == st.log + (if st.x <= 0 then [P.Warned(P.XNotSet)] else []) +
                              (if st.y <= 0 then [P.Warned(P.YNotSet)] else []) +
                              (if st.born == {} || st.survives == {} then [P.Warned(P.RuleNotSet)] else [])
    ensures r == st.(x := r.x, y := r.y, born := r.born, survives := r.survives, log := r.log,
                     grid := r.grid, position := r.position)
    ensures Counted(st) ==> Counted(r)
  {
    var s := RuleDefaults(SizeDefaults(st));
    s.(grid := Some(Grid(s.y, s.x, DeadCells(s.y, s.x))), position := Begin())
  }

  /** The defaults of `m_x` and `m_y`, each with its warning. */
  function SizeDefaults(st: LState): (r: LState)
    ensures r.x == (if st.x <= 0 then 10 else st.x) && r.y == (if st.y <= 0 then 10 else st.y)
    ensures r.log == st.log + (if st.x <= 0 then [P.Warned(P.XNotSet)] else []) +
                              (if st.y <= 0 then [P.Warned(P.YNotSet)] else [])
    ensures r == st.(x := r.x, y := r.y, log := r.log)
    ensures Counted(st) ==> Counted(r)
  {
    HeightDefault(WidthDefault(st))
  }

  /** `m_x` at 0 or less becomes 10, with a warning. */
  function WidthDefault(st: LState): (r: LState)
    ensures r.x == (if st.x <= 0 then 10 else st.x)
    ensures r.log == st.log + (if st.x <= 0 then [P.Warned(P.XNotSet)] else [])
    ensures r == st.(x := r.x, log := r.log)
    ensures Counted(st) ==> Counted(r)
  {
    if st.x <= 0 then ReportWarning(st.(x := 10), P.XNotSet) else st
  }

  /** `m_y` at 0 or less becomes 10, with a warning. */
  function HeightDefault(st: LState): (r: LState)
    ensures r.y == (if st.y <= 0 then 10 else st.y)
    ensures r.log == st.log + (if st.y <= 0 then [P.Warned(P.YNotSet)] else [])
    ensures r == st.(y := r.y, log := r.log)
    ensures Counted(st) ==> Counted(r)
  {
    if st.y <= 0 then ReportWarning(st.(y := 10), P.YNotSet) else st
  }

  /** The default rules, with one warning, when either set is empty. */
  function RuleDefaults(st: LState): (r: LState)
    ensures st.born != {} && st.survives != {} ==> r == st
    ensures st.born == {} || st.survives == {} ==>
      r == st.(born := st.born + {3}, survives := st.survives + {2, 3}, log := st.log + [P.Warned(P.RuleNotSet)])
    ensures Counted(st) ==> Counted(r)
  {
    if st.born == {} || st.survives == {} then AddDefaultRules(ReportWarning(st, P.RuleNotSet))
    else st
  }

  /** `m_born.insert(3); m_survives.insert({2, 3});`. */
  function AddDefaultRules(st: LState): (r: LState)
    ensures 3 in r.born && 2 in r.survives && 3 in r.survives
    ensures r == st.(born := r.born, survives := r.survives)
  {
    st.(born := st.born + {3}, survives := st.survives + {2, 3})
  }

  /** The board exists, the cursor is on one of its columns. */
  predicate Drawing(st: LState) {
    st.grid.Some? && WellShaped(st.grid.value.cells, st.grid.value.height, st.grid.value.width) &&
    st.grid.value.width > 0 && st.position.col < st.grid.value.width
  }

  /** `header_section()`: the statements when the first symbol can start
      one, then the defaults and the board, whatever was reported. */
  function HeaderSection(toks: seq<Token>, e: Ending, st: LState): (r: LState)
    requires st.next <= |toks|
    ensures Progress(toks, e, st, r)
    ensures Drawing(r) && r.position == Begin() && r.grid.value.height >= 1 && r.grid.value.width >= 1
  {
    var s := if st.symbol == X || st.symbol == Y || st.symbol == Rule then
               Statements(toks, e, ValueDescription(toks, e, st))
             else st;
    HeaderDefaults(s)
  }

  /** `comment_section()`: skips comments. */
  function Comments(toks: seq<Token>, e: Ending, st: LState): (r: LState)
    requires st.next <= |toks|
    ensures Progress(toks, e, st, r)
    ensures r.symbol != Comment
    ensures r == st.(next := r.next, symbol := r.symbol, currentText := r.currentText,
                     cachedText := r.cachedText, halt := r.halt)
    decreases Rest(toks, st)
  {
    if st.symbol == Comment then Comments(toks, e, NextSymbol(toks, e, st)) else st
  }

  /** The board of `r` has the dimensions of the board of `st`. */
  predicate SameSize(st: LState, r: LState) {
    st.grid.Some? && r.grid.Some? &&
    r.grid.value.height == st.grid.value.height && r.grid.value.width == st.grid.value.width
  }

  /** `n` writes of `v` at the cursor, which advances after each. */
  function Put(st: LState, n: nat, v: bool): (r: LState)
    requires Drawing(st)
    ensures Drawing(r) && SameSize(st, r)
    ensures r == st.(grid := r.grid, position := r.position)
    ensures (r.grid.value, r.position) == P.Fill(st.grid.value, st.position, n, v)
  {
    var r := P.Fill(st.grid.value, st.position, n, v);
    st.(grid := Some(r.0), position := r.1)
  }

  /** The end of `pattern()`: after `b`, `n` dead cells; otherwise `o` is
      expected and `n` live cells are written, even when it is missing. */
  function Run(toks: seq<Token>, e: Ending, st: LState, n: nat): (r: LState)
    requires st.next <= |toks| && Drawing(st)
    ensures Progress(toks, e, st, r) && Drawing(r) && SameSize(st, r)
    ensures st.symbol == B || st.symbol == O ==> Rest(toks, r) < Rest(toks, st)
  {
    if st.symbol == B then Put(NextSymbol(toks, e, st), n, false)
    else Put(Expect(toks, e, st, O).1, n, true)
  }

  /** `pattern()`: an optional count, then a run. */
  function Pattern(toks: seq<Token>, e: Ending, st: LState): (r: LState)
    requires st.next <= |toks| && Drawing(st)
    ensures Progress(toks, e, st, r) && Drawing(r) && SameSize(st, r)
    ensures st.symbol == Number || st.symbol == B || st.symbol == O ==> Rest(toks, r) < Rest(toks, st)
  {
    if st.symbol == Number then
      var s := NextSymbol(toks, e, st);
      match Stoi(s.currentText)
      case Some(n) => Run(toks, e, s, n)
      case None => Run(toks, e, Crash(s), 0)
    else
      Run(toks, e, st, 1)
  }

  /** The `while (ask({_NUMBER, _B, _O})) pattern();` loop. */
  function MorePatterns(toks: seq<Token>, e: Ending, st: LState): (r: LState)
    requires st.next <= |toks| && Drawing(st)
    ensures Progress(toks, e, st, r) && Drawing(r) && SameSize(st, r)
    ensures r.symbol != Number && r.symbol != B && r.symbol != O
    decreases Rest(toks, st)
  {
    if st.symbol == Number || st.symbol == B || st.symbol == O then MorePatterns(toks, e, Pattern(toks, e, st))
    else st
  }

  /** `line_pattern()`: at least one pattern. */
  function LinePattern(toks: seq<Token>, e: Ending, st: LState): (r: LState)
    requires st.next <= |toks| && Drawing(st)
    ensures Progress(toks, e, st, r) && Drawing(r) && SameSize(st, r)
  {
    MorePatterns(toks, e, Pattern(toks, e, st))
  }

  /** `finnish_line()`: the rest of the row is killed, without any check
      of where the cursor is. */
  function FinishRow(st: LState): (r: LState)
    requires Drawing(st)
    ensures Drawing(r) && SameSize(st, r)
    ensures r == st.(grid := r.grid, position := r.position)
    ensures (r.grid.value, r.position) == P.FinishLine(st.grid.value, st.position)
  {
    var (g, p) := P.FinishLine(st.grid.value, st.position);
    st.(grid := Some(g), position := p)
  }

  /** The `while (accept(_DOLAR))` loop of `pattern_section()`. */
  function Rows(toks: seq<Token>, e: Ending, st: LState): (r: LState)
    requires st.next <= |toks| && Drawing(st)
    ensures Progress(toks, e, st, r) && Drawing(r) && SameSize(st, r)
    ensures r.symbol != Dollar
    decreases Rest(toks, st)
  {
    if st.symbol == Dollar then Rows(toks, e, LinePattern(toks, e, FinishRow(NextSymbol(toks, e, st))))
    else st
  }

  /** `pattern_section()`: the lines, the last `finnish_line()` and the
      final `!`; it runs whatever errors the header reported. */
  function PatternSection(toks: seq<Token>, e: Ending, st: LState): (r: LState)
    requires st.next <= |toks| && Drawing(st)
    ensures Progress(toks, e, st, r) && Drawing(r) && SameSize(st, r)
  {
    Expect(toks, e, FinishRow(Rows(toks, e, LinePattern(toks, e, st))), ExclamationMark).1
  }

  /** `rtl_file()`: comments, header, pattern. */
  function RtlFile(toks: seq<Token>, e: Ending, st: LState): (r: LState)
    requires st.next <= |toks|
    ensures Progress(toks, e, st, r) && Drawing(r)
    ensures r.grid.value.height >= 1 && r.grid.value.width >= 1
  {
    var h := HeaderSection(toks, e, Comments(toks, e, st));
    PatternSection(toks, e, h)
  }

  /** The parser before the first `next_symbol()`: nothing read, `m_x` and
      `m_y` 0 (the constructor), empty rule sets, no board.
      (`m_error_count` is not initialised; it is taken to start at 0.) */
  function InitialState(): (st: LState)
    ensures st.next == 0 && Counted(st) && st.halt == Running
  {
    LState(0, Eof, "", "", 0, 0, {}, {}, 0, [], None, Begin(), Running)
  }

  /** The state at the end of `parse_stream()`. */
  function EndState(toks: seq<Token>, e: Ending): (st: LState)
    ensures st.next <= |toks| && Drawing(st) && Counted(st)
    ensures st.grid.value.height >= 1 && st.grid.value.width >= 1
    ensures HaltStep(e, Running, st.halt)
  {
    RtlFile(toks, e, NextSymbol(toks, e, InitialState()))
  }

  /** `parse_stream()` on the tokens `toks`, whose run ends as `e`: the
      board, however many errors were reported, unless the program
      stopped. A run of tokens that ends in `eof` can only be stopped by
      `std::stoi`. */
  function ParseTokens(toks: seq<Token>, e: Ending): (r: Outcome)
    ensures r.Parsed? ==> WellShaped(r.grid.cells, r.grid.height, r.grid.width) &&
                          r.grid.height >= 1 && r.grid.width >= 1
    ensures r.Parsed? ==> P.ErrorCount(r.log) == EndState(toks, e).errors
    ensures r.Stopped? ==> r.why != Running
    ensures r.Stopped? ==> r.why == Crashed || r.why == Stop(e)
    ensures e == Finished ==> r.Parsed? || r == Stopped(Crashed)
  {
    var st := EndState(toks, e);
    if st.halt == Running then Parsed(st.grid.value, st.log) else Stopped(st.halt)
  }

  /** `parse_stream()` on the text `input`. */
  function ParseStream(input: seq<char>): (r: Outcome)
  {
    var (toks, e) := Tokenize(input, Lexing.Stream(0, false));
    ParseTokens(toks, e)
  }
}
