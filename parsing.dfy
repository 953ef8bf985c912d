// What the recursive-descent parser of src/rtl_parser.cpp:293-792 does, as
// functions on the parser's state. The lexer's answer to each call of
// `lex()` depends only on where it stands in the input, so the tokens it
// hands out are fixed in advance: `Tokenize` in module `Lexing` lists them,
// and the functions here take that list and the index of the next token
// to read (past the end, `lex()` keeps answering `eof`).
//
// The parser reads one token ahead: the current symbol, the text of the
// token before it (`m_current_text`, which is what every rule reads after
// accepting a token) and the text of the current token (`m_cached_text`).
// Every function returns the state after it; those that compute a value
// return it too. The class `Parser` (parser.dfy) is the code, proved to
// agree with these functions.
//
// Termination: every function either leaves the token index where it was
// or moves it forward, and `Rest` (the tokens left plus one for a current
// symbol other than `eof`) never grows; the loops of the grammar go round
// only after accepting a token, which makes `Rest` smaller.

module Parsing {
  import opened Wrappers
  import opened Text
  import opened Tokens
  import opened Lexing
  import opened Cursor
  import opened Grids

  /** `MAX_ERROR_COUNT`. */
  const MaxErrorCount: nat := 4

  /** The errors the parser reports, one per message of src/rtl_parser.cpp.
      `DivisionByZero` stands for the undefined behaviour of dividing by a
      zero right operand, which the source does not check. */
  datatype Problem =
    | UnmatchedString | UnknownError | UnexpectedToken | NoSuchFunction
    | UnaryMinus | UnaryPlus | InvalidX | InvalidY | LineTooLong
    | NegativeExpression | UnknownVariable | WrongArgument | DivisionByZero

  /** The warnings of the header section. */
  datatype Caution = XNotSet | YNotSet | RuleNotSet

  /** One call of `error` or `warning`. */
  datatype Diagnostic = Reported(problem: Problem) | Warned(caution: Caution)

  /** One line written to the error stream. */
  datatype Line = ErrorLine(problem: Problem) | ExceededLine | WarningLine(caution: Caution)

  /** The parser's fields: how many tokens the lexer has handed out,
      `m_current_symbol`,
      `m_current_text`, `m_cached_text`, `m_values`, `m_born`,
      `m_survives`, `m_error_count`, every error and warning reported so
      far, the board's grid (`m_board`) and `m_position`. */
  datatype PState = PState(
    next: nat,
    symbol: TokenKind,
    currentText: seq<char>,
    cachedText: seq<char>,
    values: map<seq<char>, int>,
    born: set<int>,
    survives: set<int>,
    errors: nat,
    log: seq<Diagnostic>,
    grid: Option<Grid>,
    position: Position)

  /** The tokens not yet read, plus one while the current symbol is not
      `eof`. */
  function Rest(toks: seq<Token>, st: PState): nat
    requires st.next <= |toks|
  {
    |toks| - st.next + (if st.symbol == Eof then 0 else 1)
  }

  /** How many of the diagnostics are errors. */
  function ErrorCount(log: seq<Diagnostic>): nat {
    if log == [] then 0 else ErrorCount(log[..|log| - 1]) + (if log[|log| - 1].Reported? then 1 else 0)
  }

  /** `m_error_count` counts the errors reported. */
  predicate Counted(st: PState) {
    ErrorCount(st.log) == st.errors
  }

  /** What every step of the parser keeps: the token index stays within
      the list, no token is read twice, the error count never goes down
      and keeps counting the errors reported. */
  predicate Progress(toks: seq<Token>, st: PState, r: PState)
    requires st.next <= |toks|
  {
    r.next <= |toks| && Rest(toks, r) <= Rest(toks, st) &&
    st.errors <= r.errors && (Counted(st) ==> Counted(r))
  }

  /** `error(message)`: one more error. */
  function ReportError(st: PState, p: Problem): (r: PState)
    ensures r.errors == st.errors + 1
    ensures r == st.(errors := r.errors, log := r.log)
    ensures Counted(st) ==> Counted(r)
  {
    var r := st.(errors := st.errors + 1, log := st.log + [Reported(p)]);
    assert r.log[..|r.log| - 1] == st.log;
    r
  }

  /** `warning(message)`: reported, never counted. */
  function ReportWarning(st: PState, w: Caution): (r: PState)
    ensures r == st.(log := st.log + [Warned(w)])
    ensures Counted(st) ==> Counted(r)
  {
    var r := st.(log := st.log + [Warned(w)]);
    assert r.log[..|r.log| - 1] == st.log;
    r
  }

  /** The line `error` writes when `count` errors came before: the message
      while fewer than four did, "max error count exceeded" when exactly
      four did, and nothing after that. A warning is always written. */
  function LineFor(d: Diagnostic, count: nat): seq<Line> {
    match d
    case Warned(w) => [WarningLine(w)]
    case Reported(p) =>
      if count == MaxErrorCount then [ExceededLine]
      else if count < MaxErrorCount then [ErrorLine(p)]
      else []
  }

  /** Everything written to the error stream for the diagnostics `log`. */
  function Printed(log: seq<Diagnostic>): seq<Line> {
    if log == [] then []
    else Printed(log[..|log| - 1]) + LineFor(log[|log| - 1], ErrorCount(log[..|log| - 1]))
  }

  /** The log one diagnostic longer. */
  lemma LogSnoc(log: seq<Diagnostic>, d: Diagnostic)
    ensures ErrorCount(log + [d]) == ErrorCount(log) + (if d.Reported? then 1 else 0)
    ensures Printed(log + [d]) == Printed(log) + LineFor(d, ErrorCount(log))
  {
    assert (log + [d])[..|log|] == log;
  }

  function ErrorLines(lines: seq<Line>): nat {
    if lines == [] then 0 else ErrorLines(lines[..|lines| - 1]) + (if lines[|lines| - 1].ErrorLine? then 1 else 0)
  }

  function ExceededLines(lines: seq<Line>): nat {
    if lines == [] then 0 else ExceededLines(lines[..|lines| - 1]) + (if lines[|lines| - 1].ExceededLine? then 1 else 0)
  }

  function WarningLines(lines: seq<Line>): nat {
    if lines == [] then 0 else WarningLines(lines[..|lines| - 1]) + (if lines[|lines| - 1].WarningLine? then 1 else 0)
  }

  function WarningCount(log: seq<Diagnostic>): nat {
    if log == [] then 0 else WarningCount(log[..|log| - 1]) + (if log[|log| - 1].Warned? then 1 else 0)
  }

  lemma CountsAppend(lines: seq<Line>, more: seq<Line>)
    requires |more| <= 1
    ensures ErrorLines(lines + more) == ErrorLines(lines) + ErrorLines(more)
    ensures ExceededLines(lines + more) == ExceededLines(lines) + ExceededLines(more)
    ensures WarningLines(lines + more) == WarningLines(lines) + WarningLines(more)
  {
    if more != [] {
      assert (lines + more)[..|lines + more| - 1] == lines;
      assert more[..0] == [];
    } else {
      assert lines + more == lines;
    }
  }

  /** The error cap: of `n` errors, the first four are written, the fifth
      is replaced by one "max error count exceeded" line and the rest write
      nothing; every warning is written. */
  lemma {:induction false} PrintedCapped(log: seq<Diagnostic>)
    ensures var n := ErrorCount(log);
      ErrorLines(Printed(log)) == (if n < MaxErrorCount then n else MaxErrorCount) &&
      ExceededLines(Printed(log)) == (if n > MaxErrorCount then 1 else 0) &&
      WarningLines(Printed(log)) == WarningCount(log)
  {
    if log != [] {
      var init := log[..|log| - 1];
      PrintedCapped(init);
      CountsAppend(Printed(init), LineFor(log[|log| - 1], ErrorCount(init)));
    }
  }

  /** `next_symbol()`: the next token becomes current, the cached text moves
      to `m_current_text`, and a negative token is reported. */
  function NextSymbol(toks: seq<Token>, st: PState): (r: PState)
    requires st.next <= |toks|
    ensures Progress(toks, st, r)
    ensures st.symbol != Eof ==> Rest(toks, r) < Rest(toks, st)
    ensures r.values == st.values && r.born == st.born && r.survives == st.survives
    ensures r.grid == st.grid && r.position == st.position
  {
    TokenError(Shift(toks, st))
  }

  /** The token-reading half of `next_symbol()`: the next token becomes
      the current symbol, and its text the cached text. */
  function Shift(toks: seq<Token>, st: PState): (r: PState)
    requires st.next <= |toks|
    ensures r.next <= |toks| && r.errors == st.errors && r.log == st.log
  {
    var t := if st.next < |toks| then toks[st.next] else Token(Eof, "");
    st.(next := if st.next < |toks| then st.next + 1 else st.next,
        symbol := t.kind, currentText := st.cachedText, cachedText := t.text)
  }

  /** `token_error()`: the lexer's error tokens are reported. */
  function TokenError(st: PState): (r: PState)
    ensures Counted(st) ==> Counted(r)
    ensures r == st <==> st.symbol != StringError && st.symbol != Error
  {
    if st.symbol == StringError then ReportError(st, UnmatchedString)
    else if st.symbol == Error then ReportError(st, UnknownError)
    else st
  }

  /** `accept(symbol)`: consumes the current token when it is `k`. */
  function Accept(toks: seq<Token>, st: PState, k: TokenKind): (r: (bool, PState))
    requires st.next <= |toks|
    ensures r.0 <==> st.symbol == k
    ensures r.1 == if r.0 then NextSymbol(toks, st) else st
  {
    if st.symbol == k then (true, NextSymbol(toks, st)) else (false, st)
  }

  /** `expect(symbol)` with `PARSE_ANYWAY`: every token before the next `k`
      is reported as unexpected and skipped; the search gives up at `eof`.
      It succeeds without a report exactly when `k` is current; it fails
      only at `eof`; and skipping a token always costs an error. */
  function Expect(toks: seq<Token>, st: PState, k: TokenKind): (r: (bool, PState))
    requires st.next <= |toks|
    ensures Progress(toks, st, r.1)
    ensures st.symbol != Eof ==> Rest(toks, r.1) < Rest(toks, st)
    ensures st.symbol == k ==> r == (true, NextSymbol(toks, st))
    ensures st.symbol != k && st.symbol == Eof ==> r == (false, st)
    ensures !r.0 ==> r.1.symbol == Eof
    ensures st.symbol != k && st.symbol != Eof ==> st.errors < r.1.errors
    ensures r.1.values == st.values && r.1.born == st.born && r.1.survives == st.survives
    ensures r.1.grid == st.grid && r.1.position == st.position
    decreases Rest(toks, st)
  {
    if st.symbol == k then (true, NextSymbol(toks, st))
    else if st.symbol == Eof then (false, st)
    else Expect(toks, NextSymbol(toks, ReportError(st, UnexpectedToken)), k)
  }

  /** `std::stoi` on the text of a number token, which the lexer only ever
      makes of digits (`TokenShape`). */
  function Stoi(text: seq<char>): nat {
    if AllDigits(text) then DigitsValue(text) else 0
  }

  /** C++ `a / b` on `int`: the quotient rounded toward zero. */
  function TruncDiv(a: int, b: int): (q: int)
    requires b != 0
    ensures var rem := a - q * b;
      (if rem < 0 then -rem else rem) < (if b < 0 then -b else b) &&
      (rem == 0 || (rem < 0) == (a < 0))
  {
    if (a < 0) == (b < 0) then
      (if a < 0 then -a else a) / (if b < 0 then -b else b)
    else
      -((if a < 0 then -a else a) / (if b < 0 then -b else b))
  }

  /** The first part of `math_expression`: one operand. An identifier is
      looked up in `m_values`; an unknown one is reported, is worth 0 and
      is added to the table with the value 0 by `operator[]`. After `-`,
      `+` or `(` the operand is a whole expression (negated after `-`,
      followed by `)` after `(`). */
  function Operand(toks: seq<Token>, st: PState): (r: (int, PState))
    requires st.next <= |toks|
    ensures Progress(toks, st, r.1)
    ensures r.1.born == st.born && r.1.survives == st.survives
    ensures r.1.grid == st.grid && r.1.position == st.position
    decreases Rest(toks, st), 0
  {
    if st.symbol == Identifier then
      Lookup(NextSymbol(toks, st))
    else if st.symbol == Number then
      var s := NextSymbol(toks, st);
      (Stoi(s.currentText), s)
    else if st.symbol == Minus || st.symbol == Plus || st.symbol == OBracket then
      Nested(toks, st.symbol, MathExpression(toks, NextSymbol(toks, st)))
    else
      (0, ReportError(st, WrongArgument))
  }

  /** The value of the variable just read: an unknown name is reported
      and bound to 0. */
  function Lookup(st: PState): (r: (int, PState))
    ensures r.1.next == st.next && r.1.symbol == st.symbol && st.errors <= r.1.errors
    ensures Counted(st) ==> Counted(r.1)
    ensures r.1.born == st.born && r.1.survives == st.survives
    ensures r.1.grid == st.grid && r.1.position == st.position
    ensures st.currentText in r.1.values && r.0 == r.1.values[st.currentText]
    ensures r.1 == st <==> st.currentText in st.values
  {
    var name := st.currentText;
    if name in st.values then (st.values[name], st)
    else (0, ReportError(st, UnknownVariable).(values := st.values[name := 0]))
  }

  /** The operand after `-`, `+` or `(`, given the value and state after
      the expression that follows it: negated after `-`, and followed by
      `)` after `(`. */
  function Nested(toks: seq<Token>, k: TokenKind, r: (int, PState)): (r': (int, PState))
    requires r.1.next <= |toks|
    ensures Progress(toks, r.1, r'.1)
    ensures r'.1.born == r.1.born && r'.1.survives == r.1.survives
    ensures r'.1.grid == r.1.grid && r'.1.position == r.1.position
  {
    if k == Minus then (-r.0, r.1)
    else if k == OBracket then (r.0, Expect(toks, r.1, CBracket).1)
    else r
  }

  /** Whether `k` is one of the operators of `math_expression`. */
  predicate IsOperator(k: TokenKind) {
    k == Multiply || k == Slash || k == Plus || k == Minus
  }

  /** `a op b` for an operator; a zero divisor is reported and gives 0. */
  function Apply(op: TokenKind, a: int, b: int, st: PState): (r: (int, PState))
    requires IsOperator(op)
    ensures r.1 == (if op == Slash && b == 0 then ReportError(st, DivisionByZero) else st)
  {
    match op
    case Multiply => (a * b, st)
    case Slash => if b == 0 then (0, ReportError(st, DivisionByZero)) else (TruncDiv(a, b), st)
    case Plus => (a + b, st)
    case Minus => (a - b, st)
  }

  /** `math_expression()`: an operand, then what follows it. */
  function MathExpression(toks: seq<Token>, st: PState): (r: (int, PState))
    requires st.next <= |toks|
    ensures Progress(toks, st, r.1)
    ensures r.1.born == st.born && r.1.survives == st.survives
    ensures r.1.grid == st.grid && r.1.position == st.position
    decreases Rest(toks, st), 2
  {
    var (a, s) := Operand(toks, st);
    Operator(toks, a, s)
  }

  /** The end of `math_expression()`, after an operand of value `a`: after
      `*`, `/`, `+` or `-`, the value of the whole rest of the expression
      is the right operand. All four operators therefore bind equally and
      group to the right. */
  function Operator(toks: seq<Token>, a: int, st: PState): (r: (int, PState))
    requires st.next <= |toks|
    ensures Progress(toks, st, r.1)
    ensures r.1.born == st.born && r.1.survives == st.survives
    ensures r.1.grid == st.grid && r.1.position == st.position
    decreases Rest(toks, st), 1
  {
    if IsOperator(st.symbol) then
      var (b, s) := MathExpression(toks, NextSymbol(toks, st));
      Apply(st.symbol, a, b, s)
    else
      (a, st)
  }

  /** `expression_value()`: `%(` math_expression `)`. Leaves the board
      alone, and consumes the `%` when it is current. */
  function ExpressionValue(toks: seq<Token>, st: PState): (r: (int, PState))
    requires st.next <= |toks|
    ensures Progress(toks, st, r.1)
    ensures st.symbol != Eof ==> Rest(toks, r.1) < Rest(toks, st)
    ensures r.1.born == st.born && r.1.survives == st.survives
    ensures r.1.grid == st.grid && r.1.position == st.position
  {
    var s1 := Expect(toks, st, Percent).1;
    var s2 := Expect(toks, s1, OBracket).1;
    var (v, s3) := MathExpression(toks, s2);
    (v, Expect(toks, s3, CBracket).1)
  }

  /** The numbers `for (auto&& iter : text) set.insert(iter - '0')` inserts:
      one per character. */
  function DigitSet(text: seq<char>): set<int> {
    set i | 0 <= i < |text| :: text[i] as int - '0' as int
  }

  /** One half of `rule_description()`: the letter `k`, then a number, and
      the digits of that number. When both are there, nothing is skipped
      and the digits are those of the number token. */
  function RuleHalf(toks: seq<Token>, st: PState, k: TokenKind): (r: (set<int>, PState))
    requires st.next <= |toks|
    ensures Progress(toks, st, r.1)
    ensures r.1.values == st.values && r.1.grid == st.grid && r.1.position == st.position
    ensures r.1.born == st.born && r.1.survives == st.survives
    ensures r.0 == DigitSet(r.1.currentText)
    ensures st.symbol == k && st.next < |toks| && toks[st.next].kind == Number ==>
      r.1 == NextSymbol(toks, NextSymbol(toks, st)) && r.0 == DigitSet(toks[st.next].text)
  {
    var s := Expect(toks, Expect(toks, st, k).1, Number).1;
    (DigitSet(s.currentText), s)
  }

  /** `rule_description()`: `B`, a number, `/`, `S`, a number; every digit
      of the first number is added to the born set, every digit of the
      second to the survive set. */
  function RuleDescription(toks: seq<Token>, st: PState): (r: PState)
    requires st.next <= |toks|
    ensures Progress(toks, st, r)
    ensures r.values == st.values && r.grid == st.grid && r.position == st.position
    ensures st.born <= r.born && r.survives == st.survives + DigitSet(r.currentText)
    ensures st.symbol == B && st.next < |toks| && toks[st.next].kind == Number ==>
      r.born == st.born + DigitSet(toks[st.next].text)
  {
    var (born, s1) := RuleHalf(toks, st, B);
    SurvivePart(toks, s1.(born := s1.born + born))
  }

  /** The part of `rule_description()` after the born digits. */
  function SurvivePart(toks: seq<Token>, st: PState): (r: PState)
    requires st.next <= |toks|
    ensures Progress(toks, st, r)
    ensures r.values == st.values && r.grid == st.grid && r.position == st.position
    ensures r.born == st.born && r.survives == st.survives + DigitSet(r.currentText)
  {
    var s1 := Expect(toks, st, Slash).1;
    var (survives, s2) := RuleHalf(toks, s1, S);
    s2.(survives := s2.survives + survives)
  }

  /** The errors for a unary sign before `%(...)`: minus first, then plus. */
  function UnaryErrors(st: PState, minus: bool, plus: bool): (r: PState)
    ensures r == st.(errors := r.errors, log := r.log)
    ensures r.errors == st.errors + (if minus then 1 else 0) + (if plus then 1 else 0)
    ensures Counted(st) ==> Counted(r)
  {
    var s := if minus then ReportError(st, UnaryMinus) else st;
    if plus then ReportError(s, UnaryPlus) else s
  }

  /** An optional sign before the right-hand side of an assignment:
      whether it was `-`, whether it was `+`. */
  function Sign(toks: seq<Token>, st: PState): (r: (bool, bool, PState))
    requires st.next <= |toks|
    ensures !(r.0 && r.1)
    ensures r.2 == if r.0 || r.1 then NextSymbol(toks, st) else st
    ensures r.0 <==> st.symbol == Minus
    ensures r.1 <==> st.symbol == Plus
  {
    var (minus, s1) := Accept(toks, st, Minus);
    if minus then (true, false, s1)
    else
      var (plus, s2) := Accept(toks, s1, Plus);
      (false, plus, s2)
  }

  /** The right-hand side of an assignment: a number with an optional
      sign, or `%(...)`, where a sign is an error (and a minus still
      negates the value). */
  function AssignedValue(toks: seq<Token>, st: PState): (r: (int, PState))
    requires st.next <= |toks|
    ensures Progress(toks, st, r.1)
    ensures r.1.grid == st.grid && r.1.position == st.position
    ensures r.1.born == st.born && r.1.survives == st.survives
    ensures st.symbol == Number ==> r == (Stoi(st.cachedText), NextSymbol(toks, st))
    ensures st.symbol == Minus || st.symbol == Plus ==>
      var s1 := NextSymbol(toks, st);
      if s1.symbol == Number then
        r == ((if st.symbol == Minus then -1 else 1) * Stoi(s1.cachedText), NextSymbol(toks, s1))
      else s1.errors < r.1.errors
  {
    var (minus, plus, s1) := Sign(toks, st);
    var (v, s2) := Unsigned(toks, s1, minus, plus);
    (if minus then -v else v, s2)
  }

  /** The value after the optional sign: a number, or `%(...)` after the
      errors for the sign. */
  function Unsigned(toks: seq<Token>, st: PState, minus: bool, plus: bool): (r: (int, PState))
    requires st.next <= |toks|
    ensures Progress(toks, st, r.1)
    ensures r.1.grid == st.grid && r.1.position == st.position
    ensures r.1.born == st.born && r.1.survives == st.survives
    ensures st.symbol == Number ==> r == (Stoi(st.cachedText), NextSymbol(toks, st))
    ensures st.symbol != Number ==> st.errors + (if minus then 1 else 0) + (if plus then 1 else 0) <= r.1.errors
  {
    if st.symbol == Number then
      var s := NextSymbol(toks, st);
      (Stoi(s.currentText), s)
    else ExpressionValue(toks, UnaryErrors(st, minus, plus))
  }

  /** `value_description()`: `name = rule-description` or `name = value`;
      the value replaces any earlier one of the same name. */
  function ValueDescription(toks: seq<Token>, st: PState): (r: PState)
    requires st.next <= |toks|
    ensures Progress(toks, st, r)
    ensures r.grid == st.grid && r.position == st.position
    ensures st.born <= r.born && st.survives <= r.survives
    ensures st.symbol == Identifier && st.next < |toks| && toks[st.next].kind == Equals ==>
      var s2 := NextSymbol(toks, NextSymbol(toks, st));
      r == if st.cachedText == "rule" then RuleDescription(toks, s2) else Assignment(toks, s2, st.cachedText)
  {
    var s1 := Expect(toks, st, Identifier).1;
    var name := s1.currentText;
    var s2 := Expect(toks, s1, Equals).1;
    if name == "rule" then RuleDescription(toks, s2) else Assignment(toks, s2, name)
  }

  /** `name = value`: the value replaces any earlier one of the same name. */
  function Assignment(toks: seq<Token>, st: PState, name: seq<char>): (r: PState)
    requires st.next <= |toks|
    ensures Progress(toks, st, r)
    ensures r.grid == st.grid && r.position == st.position
    ensures r.born == st.born && r.survives == st.survives
    ensures name in r.values
    ensures st.symbol == Number ==> r == NextSymbol(toks, st).(values := st.values[name := Stoi(st.cachedText)])
    ensures (st.symbol == Minus || st.symbol == Plus) && NextSymbol(toks, st).symbol == Number ==>
      var s1 := NextSymbol(toks, st);
      r == NextSymbol(toks, s1).(values := st.values[name := (if st.symbol == Minus then -1 else 1) * Stoi(s1.cachedText)])
  {
    var (v, s) := AssignedValue(toks, st);
    s.(values := s.values[name := v])
  }

  /** One argument of `print`: a string, or an expression. */
  function PrintItem(toks: seq<Token>, st: PState): (r: PState)
    requires st.next <= |toks|
    ensures Progress(toks, st, r)
    ensures r.born == st.born && r.survives == st.survives
    ensures r.grid == st.grid && r.position == st.position
  {
    if st.symbol == Str then NextSymbol(toks, st) else MathExpression(toks, st).1
  }

  /** The `do ... while (accept(_COMMA))` loop of `print()`. */
  function PrintItems(toks: seq<Token>, st: PState): (r: PState)
    requires st.next <= |toks|
    ensures Progress(toks, st, r)
    ensures r.born == st.born && r.survives == st.survives
    ensures r.grid == st.grid && r.position == st.position
    ensures r.symbol != Comma
    decreases Rest(toks, st)
  {
    var s := PrintItem(toks, st);
    if s.symbol == Comma then PrintItems(toks, NextSymbol(toks, s)) else s
  }

  /** `print()`: nothing at `)`, otherwise a comma-separated list. */
  function Print(toks: seq<Token>, st: PState): (r: PState)
    requires st.next <= |toks|
    ensures Progress(toks, st, r)
    ensures r.born == st.born && r.survives == st.survives
    ensures r.grid == st.grid && r.position == st.position
  {
    if st.symbol == CBracket then st else PrintItems(toks, st)
  }

  /** `function_call()`: only `print` exists; any other name is an error. */
  function FunctionCall(toks: seq<Token>, st: PState): (r: PState)
    requires st.next <= |toks|
    ensures Progress(toks, st, r)
    ensures r.born == st.born && r.survives == st.survives
    ensures r.grid == st.grid && r.position == st.position
  {
    var s1 := Expect(toks, st, Identifier).1;
    if s1.currentText != "print" then ReportError(s1, NoSuchFunction)
    else
      var s2 := Expect(toks, s1, OBracket).1;
      Expect(toks, Print(toks, s2), CBracket).1
  }

  /** `statement()`: `call` function-call, or a value description. */
  function Statement(toks: seq<Token>, st: PState): (r: PState)
    requires st.next <= |toks|
    ensures Progress(toks, st, r)
    ensures r.grid == st.grid && r.position == st.position
    ensures st.born <= r.born && st.survives <= r.survives
  {
    if st.symbol == Call then FunctionCall(toks, NextSymbol(toks, st)) else ValueDescription(toks, st)
  }

  /** The `while (accept(_COMMA)) statement();` loop of `header_section()`. */
  function Statements(toks: seq<Token>, st: PState): (r: PState)
    requires st.next <= |toks|
    ensures Progress(toks, st, r)
    ensures r.grid == st.grid && r.position == st.position
    ensures st.born <= r.born && st.survives <= r.survives
    ensures r.symbol != Comma
    decreases Rest(toks, st)
  {
    if st.symbol == Comma then Statements(toks, Statement(toks, NextSymbol(toks, st))) else st
  }

  /** The value of `x` or `y` after the statements: the one assigned, or 10
      (with a warning) when there is none. */
  function Dimension(st: PState, name: seq<char>, w: Caution): (r: (int, PState))
    ensures r.1 == (if name in st.values then st else ReportWarning(st, w))
    ensures r.0 == if name in st.values then st.values[name] else 10
  {
    if name in st.values then (st.values[name], st) else (10, ReportWarning(st, w))
  }

  /** The defaults of `header_section()`: `x` and `y` are 10 when not
      assigned, and an empty born or survive set gets 3 added to born and
      2 and 3 to survive; each default is announced with a warning. */
  function HeaderDefaults(st: PState): (r: (int, int, PState))
    ensures r.2 == st.(log := r.2.log, born := r.2.born, survives := r.2.survives)
    ensures Counted(st) ==> Counted(r.2)
    ensures r.2.born != {} && r.2.survives != {}
  {
    var (x, s1) := Dimension(st, "x", XNotSet);
    var (y, s2) := Dimension(s1, "y", YNotSet);
    if s2.born == {} || s2.survives == {} then
      (x, y, ReportWarning(s2, RuleNotSet).(born := s2.born + {3}, survives := s2.survives + {2, 3}))
    else (x, y, s2)
  }

  /** The dimension checks of `header_section()`: an error for each
      dimension below 1, otherwise the board `Board(y, x)` with the cursor
      at its first cell. */
  function DimensionChecks(st: PState, x: int, y: int): (r: PState)
    ensures r == st.(errors := r.errors, log := r.log, grid := r.grid, position := r.position)
    ensures st.errors <= r.errors && (Counted(st) ==> Counted(r))
    ensures r.errors == st.errors <==> x >= 1 && y >= 1
    ensures r.errors == st.errors ==> r.grid == Some(Grid(y, x, DeadCells(y, x))) && r.position == Begin()
  {
    var s1 := if x < 1 then ReportError(st, InvalidX) else st;
    var s2 := if y < 1 then ReportError(s1, InvalidY) else s1;
    if x < 1 || y < 1 then s2
    else s2.(grid := Some(Grid(y, x, DeadCells(y, x))), position := Begin())
  }

  /** The end of `header_section()`: the defaults, then the checks. */
  function HeaderChecks(toks: seq<Token>, st: PState): (r: PState)
    requires st.next <= |toks|
    ensures Progress(toks, st, r) && r.values == st.values
    ensures r.errors == st.errors ==> Drawing(r) && r.position == Begin()
  {
    var (x, y, s) := HeaderDefaults(st);
    DimensionChecks(s, x, y)
  }

  /** `header_section()`: the statements, when the first symbol can start
      one, then the defaults and checks. */
  function HeaderSection(toks: seq<Token>, st: PState): (r: PState)
    requires st.next <= |toks|
    ensures Progress(toks, st, r)
    ensures r.errors == 0 ==> Drawing(r)
  {
    var s := if st.symbol == Identifier || st.symbol == Call then Statements(toks, Statement(toks, st)) else st;
    HeaderChecks(toks, s)
  }

  /** `comment_section()`: skips comments. */
  function Comments(toks: seq<Token>, st: PState): (r: PState)
    requires st.next <= |toks|
    ensures Progress(toks, st, r)
    ensures r.symbol != Comment
    ensures r == st.(next := r.next, symbol := r.symbol, currentText := r.currentText,
                     cachedText := r.cachedText, errors := r.errors, log := r.log)
    decreases Rest(toks, st)
  {
    if st.symbol == Comment then Comments(toks, NextSymbol(toks, st)) else st
  }

  /** The board exists, the cursor is on one of its columns. This holds
      from the end of a header without errors on. */
  predicate Drawing(st: PState) {
    st.grid.Some? && WellShaped(st.grid.value.cells, st.grid.value.height, st.grid.value.width) &&
    st.grid.value.width > 0 && st.position.col < st.grid.value.width
  }

  /** `n` times `add_at(m_position++)` (for `v`) or `kill_at(m_position++)`
      (for `!v`): the grid and the cursor after them. */
  function Fill(g: Grid, p: Position, n: nat, v: bool): (r: (Grid, Position))
    requires WellShaped(g.cells, g.height, g.width)
    ensures r.0.height == g.height && r.0.width == g.width
    ensures WellShaped(r.0.cells, g.height, g.width)
    ensures p.col < g.width ==> r.1.col < g.width
  {
    if n == 0 then (g, p)
    else
      var (g', p') := Fill(g, p, n - 1, v);
      (g'.(cells := SetCell(g'.cells, g.height, g.width, p'.row, p'.col, v)), Next(p', g.width))
  }

  /** What `Fill` does: starting from a cursor on the board, it moves the
      cursor `n` cells forward in row-major order and sets exactly the
      cells it passes (those on the board) to `v`. */
  lemma {:induction false} FillEffect(g: Grid, p: Position, n: nat, v: bool)
    requires WellShaped(g.cells, g.height, g.width) && p.col < g.width
    ensures var (g', p') := Fill(g, p, n, v);
      p' == Advance(p, n, g.width) && Index(p', g.width) == Index(p, g.width) + n &&
      forall i, j :: 0 <= i < g.height && 0 <= j < g.width ==>
        g'.cells[i][j] == if Index(p, g.width) <= i * g.width + j < Index(p, g.width) + n then v else g.cells[i][j]
  {
    if n > 0 {
      FillEffect(g, p, n - 1, v);
      var (g1, p1) := Fill(g, p, n - 1, v);
      var (g', p') := Fill(g, p, n, v);
      forall i, j | 0 <= i < g.height && 0 <= j < g.width
        ensures g'.cells[i][j] == if Index(p, g.width) <= i * g.width + j < Index(p, g.width) + n then v else g.cells[i][j]
      {
        if i * g.width + j == Index(p1, g.width) {
          IndexInjective(Position(i, j), p1, g.width);
        }
      }
    }
  }

  /** `finnish_line()`: at column 0 nothing; otherwise the rest of the row
      is killed, which leaves the cursor at the start of the next row. */
  function FinishLine(g: Grid, p: Position): (r: (Grid, Position))
    requires WellShaped(g.cells, g.height, g.width) && p.col < g.width
    ensures r.0.height == g.height && r.0.width == g.width && WellShaped(r.0.cells, g.height, g.width)
  {
    if p.col == 0 then (g, p) else Fill(g, p, g.width - p.col, false)
  }

  /** `finnish_line` ends at column 0 of the next row, killing exactly the
      cells of the current row from the cursor on. */
  lemma FinishLineEffect(g: Grid, p: Position)
    requires WellShaped(g.cells, g.height, g.width) && p.col < g.width
    ensures var (g', p') := FinishLine(g, p);
      (p.col == 0 ==> g' == g && p' == p) &&
      (p.col != 0 ==> p' == Position(p.row + 1, 0)) &&
      forall i, j :: 0 <= i < g.height && 0 <= j < g.width ==>
        g'.cells[i][j] == if p.col != 0 && i == p.row && p.col <= j then false else g.cells[i][j]
  {
    if p.col != 0 {
      var w := g.width;
      FillEffect(g, p, w - p.col, false);
      var (g', p') := FinishLine(g, p);
      NextRowIndex(p, w);
      IndexInjective(p', Position(p.row + 1, 0), w);
      forall i, j | 0 <= i < g.height && 0 <= j < w
        ensures g'.cells[i][j] == if i == p.row && p.col <= j then false else g.cells[i][j]
      {
        RestOfRow(Position(i, j), p, w);
      }
    }
  }

  /** The index of the start of the row after `p`'s. */
  lemma NextRowIndex(p: Position, w: nat)
    requires p.col < w
    ensures Index(p, w) + (w - p.col) == Index(Position(p.row + 1, 0), w)
  {
    assert (p.row + 1) * w == p.row * w + w;
  }

  /** The cells from `p` to the end of its row are those of row-major index
      `Index(p)` up to the start of the next row. */
  lemma RestOfRow(q: Position, p: Position, w: nat)
    requires q.col < w && p.col < w
    ensures Index(p, w) <= Index(q, w) < Index(p, w) + (w - p.col) <==> q.row == p.row && p.col <= q.col
  {
    if q.row < p.row {
      EarlierRowSmallerIndex(q, p, w);
    } else if p.row < q.row {
      EarlierRowSmallerIndex(Position(p.row, w - 1), q, w);
    }
  }

  /** The board of `r` has the dimensions of the board of `st`. */
  predicate SameSize(st: PState, r: PState) {
    st.grid.Some? && r.grid.Some? &&
    r.grid.value.height == st.grid.value.height && r.grid.value.width == st.grid.value.width
  }

  /** `n` writes of `v` at the cursor, which advances after each. */
  function Put(st: PState, n: nat, v: bool): (r: PState)
    requires Drawing(st)
    ensures Drawing(r) && SameSize(st, r)
    ensures r == st.(grid := r.grid, position := r.position)
  {
    var r := Fill(st.grid.value, st.position, n, v);
    st.(grid := Some(r.0), position := r.1)
  }

  /** The end of `pattern()`: after `b`, `n` dead cells; otherwise `o` is
      expected and `n` live cells are written, even when it is missing. */
  function Run(toks: seq<Token>, st: PState, n: nat): (r: PState)
    requires st.next <= |toks| && Drawing(st)
    ensures Progress(toks, st, r) && Drawing(r) && SameSize(st, r)
    ensures st.symbol != Eof ==> Rest(toks, r) < Rest(toks, st)
  {
    if st.symbol == B then Put(NextSymbol(toks, st), n, false)
    else Put(Expect(toks, st, O).1, n, true)
  }

  /** `pattern()`: an optional count, then a run. A count given as
      `%(...)` is always reported as an error, and nothing is written. */
  function Pattern(toks: seq<Token>, st: PState): (r: PState)
    requires st.next <= |toks| && Drawing(st)
    ensures Progress(toks, st, r) && Drawing(r) && SameSize(st, r)
    ensures st.symbol != Eof ==> Rest(toks, r) < Rest(toks, st)
  {
    if st.symbol == Number then
      var s := NextSymbol(toks, st);
      Run(toks, s, Stoi(s.currentText))
    else if st.symbol == Percent then
      ReportError(ExpressionValue(toks, st).1, NegativeExpression)
    else
      Run(toks, st, 1)
  }

  /** The `while (ask({_NUMBER, _B, _O})) pattern();` loop. */
  function MorePatterns(toks: seq<Token>, st: PState): (r: PState)
    requires st.next <= |toks| && Drawing(st)
    ensures Progress(toks, st, r) && Drawing(r) && SameSize(st, r)
    ensures r.symbol != Number && r.symbol != B && r.symbol != O
    decreases Rest(toks, st)
  {
    if st.symbol == Number || st.symbol == B || st.symbol == O then MorePatterns(toks, Pattern(toks, st))
    else st
  }

  /** `line_pattern()`: at least one pattern. */
  function LinePattern(toks: seq<Token>, st: PState): (r: PState)
    requires st.next <= |toks| && Drawing(st)
    ensures Progress(toks, st, r) && Drawing(r) && SameSize(st, r)
    ensures st.symbol != Eof ==> Rest(toks, r) < Rest(toks, st)
  {
    MorePatterns(toks, Pattern(toks, st))
  }

  /** The check before each `finnish_line()` of `pattern_section()`: the
      cursor is still in the row where the line started, or exactly at the
      start of the next one. */
  predicate RowOk(p: Position, row: nat) {
    row == p.row || (row + 1 == p.row && p.col == 0)
  }

  /** "line too long" unless `RowOk`, then `finnish_line()`. */
  function CloseRow(toks: seq<Token>, st: PState, row: nat): (r: PState)
    requires st.next <= |toks| && Drawing(st)
    ensures Progress(toks, st, r) && Drawing(r) && SameSize(st, r)
    ensures r.next == st.next && r.symbol == st.symbol
  {
    var s := if RowOk(st.position, row) then st else ReportError(st, LineTooLong);
    var (g, p) := FinishLine(s.grid.value, s.position);
    s.(grid := Some(g), position := p)
  }

  /** The `while (accept(_DOLAR))` loop of `pattern_section()`, with `row`
      the row where the current line started. */
  function Rows(toks: seq<Token>, st: PState, row: nat): (r: (PState, nat))
    requires st.next <= |toks| && Drawing(st)
    ensures Progress(toks, st, r.0) && Drawing(r.0) && SameSize(st, r.0)
    ensures r.0.symbol != Dollar
    decreases Rest(toks, st)
  {
    if st.symbol == Dollar then
      var s := CloseRow(toks, NextSymbol(toks, st), row);
      Rows(toks, LinePattern(toks, s), s.position.row)
    else (st, row)
  }

  /** `pattern_section()`: skipped entirely once any error was counted;
      otherwise the lines, the last `finnish_line()` and the final `!`. */
  function PatternSection(toks: seq<Token>, st: PState): (r: PState)
    requires st.next <= |toks| && (st.errors == 0 ==> Drawing(st))
    ensures Progress(toks, st, r)
    ensures st.errors != 0 ==> r == st
    ensures st.errors == 0 ==> Drawing(r) && SameSize(st, r)
  {
    if st.errors != 0 then st
    else
      var (s1, row) := Rows(toks, LinePattern(toks, st), st.position.row);
      Expect(toks, CloseRow(toks, s1, row), ExclamationMark).1
  }

  /** `rtl_file()`: comments, header, pattern. */
  function RtlFile(toks: seq<Token>, st: PState): (r: PState)
    requires st.next <= |toks|
    ensures Progress(toks, st, r)
    ensures r.errors == 0 ==> Drawing(r)
  {
    PatternSection(toks, HeaderSection(toks, Comments(toks, st)))
  }

  /** The parser before the first `next_symbol()`: nothing read, no values,
      empty rule sets, no errors and no board. (`m_error_count` is not
      initialised by the constructor; it is taken to start at 0.) */
  function InitialState(): (st: PState)
    ensures st.next == 0 && Counted(st)
  {
    PState(0, Eof, "", "", map[], {}, {}, 0, [], None, Begin())
  }

  /** `parse_stream()` on the tokens `toks`: the board, when no error was
      counted, and every diagnostic reported. */
  function ParseTokens(toks: seq<Token>): (r: (Option<Grid>, seq<Diagnostic>))
    ensures r.0.Some? <==> ErrorCount(r.1) == 0
    ensures r.0.Some? ==> WellShaped(r.0.value.cells, r.0.value.height, r.0.value.width) && r.0.value.width > 0
  {
    var st := RtlFile(toks, NextSymbol(toks, InitialState()));
    (if st.errors == 0 then st.grid else None, st.log)
  }

  /** `parse_stream()` on the text `input`. */
  function ParseStream(input: seq<char>): (r: (Option<Grid>, seq<Diagnostic>))
    ensures r.0.Some? <==> ErrorCount(r.1) == 0
  {
    ParseTokens(Tokenize(input, Stream(0, false)))
  }
}
