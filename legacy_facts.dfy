// Properties of the earlier parser (legacy_parsing.dfy) that relate several
// of its steps: what a size statement does with and without its parts, that
// a row longer than the board is no error, that an empty input still gives
// a board, and which inputs stop the program.

module LegacyFacts {
  import opened Wrappers
  import opened Text
  import opened Tokens
  import Lexing
  import opened LegacyLexing
  import opened Cursor
  import opened Grids
  import opened LegacyParsing
  import P = Parsing

  /** `x = n` (or `y = n`), complete: the size becomes `n`, whatever it
      was before, so the last such statement wins. */
  lemma SizeAssignment(toks: seq<Token>, e: Ending, st: LState)
    requires st.next + 1 < |toks| && st.halt == Running && (st.symbol == X || st.symbol == Y)
    requires toks[st.next] == Token(Equals, "=")
    requires toks[st.next + 1].kind == Number && |toks[st.next + 1].text| > 0 && AllDigits(toks[st.next + 1].text)
    ensures var r := ValueDescription(toks, e, st);
      var n := DigitsValue(toks[st.next + 1].text);
      r.errors == st.errors && r.halt == (if st.next + 2 < |toks| then Running else Stop(e)) &&
      (st.symbol == X ==> r.x == n && r.y == st.y) &&
      (st.symbol == Y ==> r.y == n && r.x == st.x)
  {
    var s1 := NextSymbol(toks, e, st);
    var s2 := Expect(toks, e, s1, Equals).1;
    assert s2 == NextSymbol(toks, e, s1);
    var s3 := Expect(toks, e, s2, Number).1;
    assert s3.currentText == toks[st.next + 1].text;
  }

  /** `x =` (or `y =`) followed by something other than a number: the
      missing number is reported, and `std::stoi` then reads `=` and
      throws. */
  lemma MissingNumberThrows(toks: seq<Token>, e: Ending, st: LState)
    requires st.next + 1 < |toks| && st.halt == Running && (st.symbol == X || st.symbol == Y)
    requires toks[st.next] == Token(Equals, "=") && toks[st.next + 1].kind != Number
    ensures var r := ValueDescription(toks, e, st);
      r.halt == Crashed && r.errors == st.errors + 1
  {
    var s1 := NextSymbol(toks, e, st);
    var s2 := Expect(toks, e, s1, Equals).1;
    assert s2.currentText == "=";
    var s3 := Expect(toks, e, s2, Number).1;
    assert s3.currentText == "=";
  }

  /** `x n` without `=`: the missing `=` is reported, but nothing is
      skipped, so the number that follows is still read and assigned. */
  lemma MissingEqualsStillAssigns(toks: seq<Token>, e: Ending, st: LState)
    requires st.next < |toks| && st.halt == Running && st.symbol == X
    requires toks[st.next].kind == Number && |toks[st.next].text| > 0 && AllDigits(toks[st.next].text)
    ensures var r := ValueDescription(toks, e, st);
      r.errors == st.errors + 1 && r.x == DigitsValue(toks[st.next].text)
  {
    var s1 := NextSymbol(toks, e, st);
    var s2 := Expect(toks, e, s1, Equals).1;
    assert s2.symbol == Number && s2.cachedText == toks[st.next].text;
    var s3 := Expect(toks, e, s2, Number).1;
    assert s3.currentText == toks[st.next].text;
  }

  /** A body `<n>o!` writes `n` live cells from the cursor on, however
      many that is compared with the width of the board (the extra cells
      run on into the next rows), then `finnish_line()` ends the row; no
      error is reported. */
  lemma LongRowIsNoError(toks: seq<Token>, e: Ending, st: LState)
    requires st.next + 1 < |toks| && Drawing(st) && st.halt == Running
    requires st.symbol == Number && |st.cachedText| > 0 && AllDigits(st.cachedText)
    requires toks[st.next].kind == O && toks[st.next + 1].kind == ExclamationMark
    ensures var r := PatternSection(toks, e, st);
      var (g1, p1) := P.Fill(st.grid.value, st.position, DigitsValue(st.cachedText), true);
      r.errors == st.errors && (r.grid.value, r.position) == P.FinishLine(g1, p1)
  {
    var n := DigitsValue(st.cachedText);
    var s1 := NextSymbol(toks, e, st);
    assert Stoi(s1.currentText) == Some(n);
    var s2 := Pattern(toks, e, st);
    assert s2 == Put(NextSymbol(toks, e, s1), n, true);
    assert s2.symbol == ExclamationMark && s2.errors == st.errors;
    assert MorePatterns(toks, e, s2) == s2;
    assert Rows(toks, e, s2) == s2;
  }

  /** The warnings the defaults of an empty header give. */
  const DefaultWarnings := [P.Warned(P.XNotSet), P.Warned(P.YNotSet), P.Warned(P.RuleNotSet)]

  /** A header section at `eof` with nothing set: all three defaults,
      without an error, and a 10 by 10 board. */
  lemma EmptyHeader(toks: seq<Token>, e: Ending, st: LState)
    requires st.next <= |toks| && st.symbol == Eof && st.x <= 0 && st.y <= 0 && st.born == {}
    ensures var r := HeaderSection(toks, e, st);
      r.log == st.log + DefaultWarnings && r.errors == st.errors &&
      r.next == st.next && r.symbol == Eof && r.halt == st.halt &&
      r.grid.value.height == 10 && r.grid.value.width == 10
  {
  }

  /** A pattern section at `eof` with no tokens left: `expect(_O)` and
      `expect(_EXCLAMATION_MARK)` each report an error, and the program
      goes on. */
  lemma EmptyBody(toks: seq<Token>, st: LState)
    requires st.next == |toks| && st.symbol == Eof && st.halt == Running && Drawing(st)
    ensures var r := PatternSection(toks, Finished, st);
      r.log == st.log + [P.Reported(P.UnexpectedToken), P.Reported(P.UnexpectedToken)] &&
      r.halt == Running && SameSize(st, r)
  {
    var s1 := Pattern(toks, Finished, st);
    assert s1.log == st.log + [P.Reported(P.UnexpectedToken)] && s1.symbol == Eof;
    assert MorePatterns(toks, Finished, s1) == s1;
    assert Rows(toks, Finished, s1) == s1;
  }

  /** An input of blanks only (the empty input among them): three
      warnings for the defaults and two errors, and still the 10 by 10
      board is returned. */
  lemma BlankInput(input: seq<char>)
    requires forall k :: 0 <= k < |input| ==> input[k] == ' ' || input[k] == '\n'
    ensures ParseStream(input).Parsed?
    ensures ParseStream(input).log == DefaultWarnings + [P.Reported(P.UnexpectedToken), P.Reported(P.UnexpectedToken)]
    ensures ParseStream(input).grid.height == 10 && ParseStream(input).grid.width == 10
  {
    BlanksSkipped(input, 0, |input|);
    var (toks, e) := Tokenize(input, Lexing.Stream(0, false));
    assert toks == [] && e == Finished;
    var s0 := NextSymbol(toks, e, InitialState());
    assert Comments(toks, e, s0) == s0;
    EmptyHeader(toks, e, s0);
    var h := HeaderSection(toks, e, s0);
    EmptyBody(toks, h);
    var r := PatternSection(toks, e, h);
    assert RtlFile(toks, e, s0) == r;
    assert EndState(toks, e) == r;
    assert s0.log == [] && s0.halt == Running;
    assert h.log == DefaultWarnings;
    assert r.halt == Running;
  }

  /** When the first `next_symbol()` of `parse_stream()` already stops
      the program, nothing after it runs and the outcome is that stop. */
  lemma FirstReadStops(toks: seq<Token>, e: Ending)
    requires NextSymbol(toks, e, InitialState()).halt != Running
    ensures ParseTokens(toks, e) == Stopped(NextSymbol(toks, e, InitialState()).halt)
  {
    var s0 := NextSymbol(toks, e, InitialState());
    assert EndState(toks, e) == RtlFile(toks, e, s0);
  }

  /** An `r` that does not start `rule`, after blanks only and with
      something after its letters: the first `lex()` never returns, and
      neither does `parse_stream()`. */
  lemma RWordStopsParse(input: seq<char>, i: nat)
    requires i < |input| && input[i] == 'r'
    requires LetterEnd(input, i + 1) < |input| && input[i..LetterEnd(input, i + 1)] != "rule"
    requires forall k :: 0 <= k < i ==> input[k] == ' ' || input[k] == '\n'
    ensures ParseStream(input) == Stopped(Hung)
  {
    RWordHangs(input, i);
    assert Tokenize(input, Lexing.Stream(0, false)) == ([], Hangs);
    FirstReadStops([], Hangs);
    assert ParseStream(input) == ParseTokens([], Hangs);
  }

  /** A character the lexer does not know, after blanks only: the first
      `lex()` aborts, and `parse_stream()` with it. */
  lemma UnknownCharacterStopsParse(input: seq<char>, i: nat)
    requires i < |input|
    requires !IsSingle(input[i]) && !IsDigit(input[i]) && input[i] != '#' && input[i] != 'r'
    requires input[i] != ' ' && input[i] != '\n'
    requires forall k :: 0 <= k < i ==> input[k] == ' ' || input[k] == '\n'
    ensures ParseStream(input) == Stopped(Aborted)
  {
    UnknownAborts(input, i);
    assert Tokenize(input, Lexing.Stream(0, false)) == ([], Aborts);
    FirstReadStops([], Aborts);
    assert ParseStream(input) == ParseTokens([], Aborts);
  }
}
