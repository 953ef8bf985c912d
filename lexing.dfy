// The lexer of src/rtl_parser.cpp:101-291. `Lexer` reads its characters
// from a `std::istream`; here the stream is the whole input as a sequence
// and a read position, together with the stream's fail flag: once `get`
// has run into the end of the input it keeps returning `eof` and `unget`
// does nothing.
//
// `NextToken` says what one call of `lex()` returns and where it leaves the
// stream, in terms of the input alone; the class `Lexer` is the code, and
// its `Lex` method is proved to agree with `NextToken`.

module Lexing {
  import opened Text
  import opened Tokens

  /** What `std::istream::get` returns: a character, or `eof`. */
  datatype Got = Char(c: char) | EndOfFile

  /** The stream: the position of the next character to read, and whether
      the fail flag is set. */
  datatype Stream = Stream(pos: nat, failed: bool)

  /** The fail flag is only ever set at the end of the input. */
  predicate ValidStream(input: seq<char>, s: Stream) {
    s.pos <= |input| && (s.failed ==> s.pos == |input|)
  }

  /** The first position at or after `i` that does not hold a letter or
      `_`: where `get_word` stops. */
  function WordEnd(input: seq<char>, i: nat): (j: nat)
    requires i <= |input|
    ensures i <= j <= |input|
    ensures forall k :: i <= k < j ==> IsWordChar(input[k])
    ensures j == |input| || !IsWordChar(input[j])
    decreases |input| - i
  {
    if i == |input| || !IsWordChar(input[i]) then i else WordEnd(input, i + 1)
  }

  /** The first position at or after `i` that does not hold a digit. */
  function DigitEnd(input: seq<char>, i: nat): (j: nat)
    requires i <= |input|
    ensures i <= j <= |input|
    ensures forall k :: i <= k < j ==> IsDigit(input[k])
    ensures j == |input| || !IsDigit(input[j])
    decreases |input| - i
  {
    if i == |input| || !IsDigit(input[i]) then i else DigitEnd(input, i + 1)
  }

  /** The first position at or after `i` that holds `c`, or the end of the
      input when there is none. */
  function Find(input: seq<char>, i: nat, c: char): (j: nat)
    requires i <= |input|
    ensures i <= j <= |input|
    ensures forall k :: i <= k < j ==> input[k] != c
    ensures j < |input| ==> input[j] == c
    decreases |input| - i
  {
    if i == |input| || input[i] == c then i else Find(input, i + 1, c)
  }

  /** The stream after a scan that read up to position `j` and then put
      back the character that ended it: at the end of the input the read
      set the fail flag, so the put-back did nothing. */
  function AfterScan(input: seq<char>, j: nat): (s: Stream)
    requires j <= |input|
    ensures ValidStream(input, s) && s.pos == j
  {
    Stream(j, j == |input|)
  }

  /** A letter other than `b`, `o`, `s` (either case), or `_`, at `i`: the
      whole run of letters and `_` from there, `call` as a keyword and
      anything else as an identifier. */
  function WordToken(input: seq<char>, i: nat): (Token, Stream)
    requires i < |input|
  {
    var j := WordEnd(input, i + 1);
    var word := input[i..j];
    (Token(if word == "call" then Call else Identifier, word), AfterScan(input, j))
  }

  /** A digit at `i`: the whole run of digits from there. */
  function NumberToken(input: seq<char>, i: nat): (Token, Stream)
    requires i < |input|
  {
    var j := DigitEnd(input, i + 1);
    (Token(Number, input[i..j]), AfterScan(input, j))
  }

  /** A quote at `i`: the text up to the next quote of the same kind, or
      `_STRING_ERROR` with everything read when there is none. */
  function StringToken(input: seq<char>, i: nat): (Token, Stream)
    requires i < |input|
  {
    var j := Find(input, i + 1, input[i]);
    if j == |input| then (Token(StringError, ""), Stream(|input|, true))
    else (Token(Str, input[i + 1..j]), Stream(j + 1, false))
  }

  /** `#` at `i`: the rest of the line, the newline read but not kept.
      `getline` sets the fail flag only when it reads nothing at all. */
  function CommentToken(input: seq<char>, i: nat): (Token, Stream)
    requires i < |input|
  {
    var j := Find(input, i + 1, '\n');
    if j == |input| then (Token(Comment, input[i..]), Stream(|input|, i + 1 == |input|))
    else (Token(Comment, input[i..j]), Stream(j + 1, false))
  }

  /** The token that starts with a letter or `_` at `i`: `b`, `o` and `s`
      (either case) are tokens by themselves and can therefore never start
      a word. */
  function LetterToken(input: seq<char>, i: nat): (r: (Token, Stream))
    requires i < |input| && IsWordChar(input[i])
    ensures ValidStream(input, r.1) && i < r.1.pos && r.0.kind != Eof
  {
    var c := input[i];
    var next := Stream(i + 1, false);
    if c == 'b' || c == 'B' then (Token(B, [c]), next)
    else if c == 'o' || c == 'O' then (Token(O, [c]), next)
    else if c == 's' || c == 'S' then (Token(S, [c]), next)
    else WordToken(input, i)
  }

  /** The token that starts with a character at `i` that is neither a
      letter, nor `_`, nor a blank. */
  function SymbolToken(input: seq<char>, i: nat): (r: (Token, Stream))
    requires i < |input| && !IsWordChar(input[i]) && input[i] != ' ' && input[i] != '\n'
    ensures ValidStream(input, r.1) && i < r.1.pos && r.0.kind != Eof
  {
    var c := input[i];
    var next := Stream(i + 1, false);
    if IsPunctuation(c) then (Token(Punctuation(c), [c]), next)
    else if c == '"' || c == '\'' then StringToken(input, i)
    else if IsDigit(c) then NumberToken(input, i)
    else if c == '#' then CommentToken(input, i)
    else (Token(Error, [c]), next)
  }

  /** The token that starts with the character at `i`, which is not a
      blank, and the stream after it. */
  function TokenAt(input: seq<char>, i: nat): (r: (Token, Stream))
    requires i < |input| && input[i] != ' ' && input[i] != '\n'
    ensures ValidStream(input, r.1) && i < r.1.pos && r.0.kind != Eof
  {
    if IsWordChar(input[i]) then LetterToken(input, i) else SymbolToken(input, i)
  }

  /** One call of `lex()` on the stream `s`: the token, and the stream
      after it. Blanks (space and newline) before the token are skipped;
      every token other than `eof` consumes input, and `eof` leaves the
      stream failed at the end of the input. */
  function NextToken(input: seq<char>, s: Stream): (r: (Token, Stream))
    requires ValidStream(input, s)
    ensures ValidStream(input, r.1)
    ensures r.0.kind != Eof ==> s.pos < r.1.pos
    ensures r.0.kind == Eof ==> r == (Token(Eof, ""), Stream(|input|, true))
    decreases |input| - s.pos
  {
    if s.failed || s.pos == |input| then (Token(Eof, ""), Stream(|input|, true))
    else if input[s.pos] == ' ' || input[s.pos] == '\n' then NextToken(input, Stream(s.pos + 1, false))
    else TokenAt(input, s.pos)
  }

  /** One more letter or `_` at `k`, inside the word that starts at
      `start`: the word read so far grows by it. */
  lemma WordGrows(input: seq<char>, start: nat, k: nat)
    requires start <= k < |input| && IsWordChar(input[k])
    requires WordEnd(input, start) == WordEnd(input, k)
    ensures WordEnd(input, start) == WordEnd(input, k + 1)
    ensures input[start..k + 1] == input[start..k] + [input[k]]
  {
    SliceSnoc(input, start, k);
  }

  /** A blank before the next token is skipped. */
  lemma BlankSkipped(input: seq<char>, i: nat)
    requires i < |input| && (input[i] == ' ' || input[i] == '\n')
    ensures NextToken(input, Stream(i, false)) == NextToken(input, Stream(i + 1, false))
  {
  }

  /** At the end of the input, the fail flag makes no difference. */
  lemma EndReached(input: seq<char>)
    ensures NextToken(input, Stream(|input|, false)) == NextToken(input, Stream(|input|, true))
  {
  }

  /** The tokens `lex()` hands out from stream `s` on, up to the first
      `eof`; every call after that answers `eof` again. */
  function Tokenize(input: seq<char>, s: Stream): (ts: seq<Token>)
    requires ValidStream(input, s)
    ensures forall i :: 0 <= i < |ts| ==> ts[i].kind != Eof
    decreases |input| - s.pos
  {
    var (t, s') := NextToken(input, s);
    if t.kind == Eof then [] else [t] + Tokenize(input, s')
  }

  /** The stream before each token `Tokenize` lists, and the stream
      before the final `eof`. */
  function Streams(input: seq<char>, s: Stream): (ss: seq<Stream>)
    requires ValidStream(input, s)
    ensures |ss| > 0 && ss[0] == s
    decreases |input| - s.pos
  {
    var (t, s') := NextToken(input, s);
    if t.kind == Eof then [s] else [s] + Streams(input, s')
  }

  /** `ts` are the tokens `lex()` hands out one after the other, `ss[i]`
      is the stream before `ts[i]` and the last stream of `ss` is the one
      before `eof`. */
  predicate Table(input: seq<char>, ts: seq<Token>, ss: seq<Stream>) {
    |ss| == |ts| + 1 &&
    (forall i :: 0 <= i < |ts| ==> ts[i].kind != Eof) &&
    (forall i :: 0 <= i < |ss| ==> ValidStream(input, ss[i])) &&
    (forall i {:trigger NextToken(input, ss[i])} :: 0 <= i < |ss| ==>
       NextToken(input, ss[i]) == if i < |ts| then (ts[i], ss[i + 1]) else (Token(Eof, ""), Stream(|input|, true)))
  }

  /** `Tokenize` and `Streams` from the same stream form a table. */
  lemma {:induction false} TableOf(input: seq<char>, s: Stream)
    requires ValidStream(input, s)
    ensures Table(input, Tokenize(input, s), Streams(input, s))
    decreases |input| - s.pos
  {
    var (t, s') := NextToken(input, s);
    if t.kind != Eof {
      TableOf(input, s');
      TableCons(input, s, t, Tokenize(input, s'), Streams(input, s'));
    }
  }

  /** A table one token longer at the front. */
  lemma TableCons(input: seq<char>, s: Stream, t: Token, ts: seq<Token>, ss: seq<Stream>)
    requires ValidStream(input, s) && Table(input, ts, ss) && t.kind != Eof
    requires NextToken(input, s) == (t, ss[0])
    ensures Table(input, [t] + ts, [s] + ss)
  {
    var ts', ss' := [t] + ts, [s] + ss;
    forall i | 0 <= i < |ts'|
      ensures ts'[i].kind != Eof
    {
      if i > 0 {
        assert ts'[i] == ts[i - 1];
      }
    }
    forall i | 0 <= i < |ss'|
      ensures ValidStream(input, ss'[i])
    {
      if i > 0 {
        assert ss'[i] == ss[i - 1];
      }
    }
    forall i | 0 <= i < |ss'|
      ensures NextToken(input, ss'[i]) ==
        if i < |ts'| then (ts'[i], ss'[i + 1]) else (Token(Eof, ""), Stream(|input|, true))
    {
      if i == 0 {
        ConsHead(input, s, t, ts, ss);
      } else {
        ConsTail(input, s, t, ts, ss, i);
      }
    }
  }

  /** The first entry of the table one token longer at the front. */
  lemma ConsHead(input: seq<char>, s: Stream, t: Token, ts: seq<Token>, ss: seq<Stream>)
    requires ValidStream(input, s) && |ss| > 0 && NextToken(input, s) == (t, ss[0])
    ensures NextToken(input, ([s] + ss)[0]) == (([t] + ts)[0], ([s] + ss)[1])
  {
    assert ([s] + ss)[0] == s && ([t] + ts)[0] == t && ([s] + ss)[1] == ss[0];
  }

  /** Entry `i > 0` of the table one token longer at the front: entry
      `i - 1` of the old table. */
  lemma ConsTail(input: seq<char>, s: Stream, t: Token, ts: seq<Token>, ss: seq<Stream>, i: nat)
    requires Table(input, ts, ss) && 0 < i < |ss| + 1
    ensures NextToken(input, ([s] + ss)[i]) ==
      if i < |[t] + ts| then (([t] + ts)[i], ([s] + ss)[i + 1]) else (Token(Eof, ""), Stream(|input|, true))
  {
    var ts', ss' := [t] + ts, [s] + ss;
    var j := i - 1;
    assert ss'[i] == ss[j];
    assert NextToken(input, ss[j]) == if j < |ts| then (ts[j], ss[j + 1]) else (Token(Eof, ""), Stream(|input|, true));
    if j < |ts| {
      assert ts'[i] == ts[j] && ss'[i + 1] == ss[j + 1];
    }
  }

  /** One step along a token table: from the stream before token `n` (or
      from the exhausted stream once all tokens are read) the lexer yields
      token `n` and the stream after it, or end of input. */
  lemma TableStep(input: seq<char>, ts: seq<Token>, ss: seq<Stream>, n: nat, s: Stream)
    requires Table(input, ts, ss) && n <= |ts|
    requires s == ss[n] || (n == |ts| && s == Stream(|input|, true))
    ensures ValidStream(input, s)
    ensures n < |ts| ==> NextToken(input, s).0 == ts[n] && NextToken(input, s).1 == ss[n + 1]
    ensures n == |ts| ==> NextToken(input, s).0 == Token(Eof, "") && NextToken(input, s).1 == Stream(|input|, true)
  {
  }

  /** What a token of each kind looks like, given the stream `s` after it.
      `b`, `o` and `s` (either case) are one-letter tokens, so no word
      starts with them; any other run of letters and `_` is one word, `call`
      the keyword and everything else an identifier (`x`, `y` and `rule`
      included: `_X`, `_Y` and `_RULE` are never produced); a number is a
      whole run of digits; a comment runs to the end of its line; a
      punctuation token is its own character; a string is the text between
      two equal quotes, with none of that quote inside, and the stream just
      past the closing one; an unterminated string has an empty text and
      leaves the stream failed at the end; an error token is a single
      character that starts no other token. */
  predicate Shaped(input: seq<char>, t: Token, s: Stream)
    requires ValidStream(input, s)
  {
    && t.kind != X && t.kind != Y && t.kind != Rule
    && (t.kind == B ==> t.text == "b" || t.text == "B")
    && (t.kind == O ==> t.text == "o" || t.text == "O")
    && (t.kind == S ==> t.text == "s" || t.text == "S")
    && (t.kind == Identifier || t.kind == Call ==>
          |t.text| > 0 && t.text[0] !in "bBoOsS" && (forall k :: 0 <= k < |t.text| ==> IsWordChar(t.text[k])) &&
          (s.pos == |input| || !IsWordChar(input[s.pos])) &&
          (t.kind == Call <==> t.text == "call"))
    && (t.kind == Number ==>
          |t.text| > 0 && AllDigits(t.text) && (s.pos == |input| || !IsDigit(input[s.pos])))
    && (t.kind == Comment ==> |t.text| > 0 && t.text[0] == '#' && '\n' !in t.text)
    && (IsPunctuationKind(t.kind) ==>
          |t.text| == 1 && IsPunctuation(t.text[0]) && Punctuation(t.text[0]) == t.kind)
    && (t.kind == Str ==>
          !s.failed && |t.text| + 2 <= s.pos && (input[s.pos - 1] == '"' || input[s.pos - 1] == '\'') &&
          input[s.pos - 2 - |t.text|] == input[s.pos - 1] && input[s.pos - 1 - |t.text|..s.pos - 1] == t.text &&
          input[s.pos - 1] !in t.text)
    && (t.kind == StringError ==> t.text == "" && s.pos == |input| && s.failed)
    && (t.kind == Error ==>
          |t.text| == 1 && !IsWordChar(t.text[0]) && !IsDigit(t.text[0]) && !IsPunctuation(t.text[0]) &&
          t.text[0] != ' ' && t.text[0] != '\n' && t.text[0] != '"' && t.text[0] != '\'' && t.text[0] != '#')
  }

  lemma LetterTokenShape(input: seq<char>, i: nat)
    requires i < |input| && IsWordChar(input[i])
    ensures Shaped(input, LetterToken(input, i).0, LetterToken(input, i).1)
  {
    var (t, s') := LetterToken(input, i);
    if t.kind == Identifier || t.kind == Call {
      assert t.text == input[i..s'.pos];
    }
  }

  lemma NumberTokenShape(input: seq<char>, i: nat)
    requires i < |input| && IsDigit(input[i])
    ensures Shaped(input, NumberToken(input, i).0, NumberToken(input, i).1)
  {
    var (t, s') := NumberToken(input, i);
    assert t.text == input[i..s'.pos];
  }

  lemma CommentTokenShape(input: seq<char>, i: nat)
    requires i < |input| && input[i] == '#'
    ensures Shaped(input, CommentToken(input, i).0, CommentToken(input, i).1)
  {
    var j := Find(input, i + 1, '\n');
    assert CommentToken(input, i).0.text == input[i..j];
  }

  lemma StringTokenShape(input: seq<char>, i: nat)
    requires i < |input| && (input[i] == '"' || input[i] == '\'')
    ensures Shaped(input, StringToken(input, i).0, StringToken(input, i).1)
  {
    var j := Find(input, i + 1, input[i]);
    if j < |input| {
      var t := input[i + 1..j];
      assert |t| + 2 == j + 1 - i;
      assert forall k :: 0 <= k < |t| ==> t[k] == input[i + 1 + k];
    }
  }

  lemma SymbolTokenShape(input: seq<char>, i: nat)
    requires i < |input| && !IsWordChar(input[i]) && input[i] != ' ' && input[i] != '\n'
    ensures Shaped(input, SymbolToken(input, i).0, SymbolToken(input, i).1)
  {
    var c := input[i];
    if IsPunctuation(c) {
      assert SymbolToken(input, i).0 == Token(Punctuation(c), [c]);
    } else if c == '"' || c == '\'' {
      assert SymbolToken(input, i) == StringToken(input, i);
      StringTokenShape(input, i);
    } else if IsDigit(c) {
      NumberTokenShape(input, i);
    } else if c == '#' {
      CommentTokenShape(input, i);
    } else {
      assert SymbolToken(input, i).0 == Token(Error, [c]);
    }
  }

  /** Every token `lex()` returns has the shape of its kind. */
  lemma {:induction false} TokenShape(input: seq<char>, s: Stream)
    requires ValidStream(input, s)
    ensures Shaped(input, NextToken(input, s).0, NextToken(input, s).1)
    decreases |input| - s.pos
  {
    if s.failed || s.pos == |input| {
    } else if input[s.pos] == ' ' || input[s.pos] == '\n' {
      assert NextToken(input, s) == NextToken(input, Stream(s.pos + 1, false));
      TokenShape(input, Stream(s.pos + 1, false));
    } else if IsWordChar(input[s.pos]) {
      assert NextToken(input, s) == LetterToken(input, s.pos);
      LetterTokenShape(input, s.pos);
    } else {
      assert NextToken(input, s) == SymbolToken(input, s.pos);
      SymbolTokenShape(input, s.pos);
    }
  }

  /** The input text of `lex()`: the stream over one input. */
  class Lexer {
    const input: seq<char>
    var pos: nat
    var failed: bool

    ghost predicate Valid()
      reads this
    {
      ValidStream(input, Stream(pos, failed))
    }

    function State(): Stream
      reads this
    {
      Stream(pos, failed)
    }

    /** `Lexer(stream)`: nothing read yet. */
    constructor (input: seq<char>)
      ensures Valid() && this.input == input && State() == Stream(0, false)
    {
      this.input := input;
      pos := 0;
      failed := false;
    }

    /** `m_stream.get()`: the next character, or `eof` (which sets the fail
        flag) at the end of the input or once the flag is set. */
    method GetChar() returns (g: Got)
      requires Valid()
      modifies this
      ensures Valid()
      ensures old(failed) || old(pos) == |input| ==> g == EndOfFile && State() == Stream(|input|, true)
      ensures !old(failed) && old(pos) < |input| ==> g == Char(input[old(pos)]) && State() == Stream(old(pos) + 1, false)
    {
      if failed || pos == |input| {
        failed := true;
        pos := |input|;
        g := EndOfFile;
      } else {
        g := Char(input[pos]);
        pos := pos + 1;
      }
    }

    /** `m_stream.unget()`: steps back over the character just read, unless
        the fail flag is set. */
    method UngetChar()
      requires Valid() && (failed || pos > 0)
      modifies this
      ensures Valid()
      ensures State() == if old(failed) then old(State()) else Stream(old(pos) - 1, false)
    {
      if !failed {
        pos := pos - 1;
      }
    }

    /** `std::getline`: the characters up to the next newline, which is
        read and dropped; at the end of the input, the rest, setting the
        fail flag when there was nothing left. */
    method GetLine() returns (line: seq<char>)
      requires Valid()
      modifies this
      ensures Valid()
      ensures var j := Find(input, old(pos), '\n');
        line == input[old(pos)..j] &&
        State() == if j == |input| then Stream(|input|, j == old(pos)) else Stream(j + 1, false)
    {
      var start := pos;
      line := [];
      while pos < |input| && input[pos] != '\n'
        invariant start <= pos <= |input| && failed == old(failed)
        invariant Find(input, pos, '\n') == Find(input, start, '\n')
        invariant line == input[start..pos]
        decreases |input| - pos
      {
        line := line + [input[pos]];
        pos := pos + 1;
      }
      if pos < |input| {
        pos := pos + 1;
      } else if pos == start {
        failed := true;
      }
    }

    /** `get_word`: the letters and `_` from the read position on; the
        character that ends them is put back. */
    method GetWord() returns (word: seq<char>)
      requires Valid()
      modifies this
      ensures Valid()
      ensures var j := WordEnd(input, old(pos));
        word == input[old(pos)..j] && State() == AfterScan(input, j)
    {
      ghost var start := pos;
      word := [];
      var g := GetChar();
      while g.Char? && IsWordChar(g.c)
        invariant Valid()
        invariant g.Char? ==> !failed && start < pos && g.c == input[pos - 1] &&
                              word == input[start..pos - 1] && WordEnd(input, start) == WordEnd(input, pos - 1)
        invariant g.EndOfFile? ==> (failed && pos == |input| && start <= pos &&
                             word == input[start..] && WordEnd(input, start) == |input|)
        decreases |input| - pos + (if g.Char? then 1 else 0)
      {
        WordGrows(input, start, pos - 1);
        word := word + [g.c];
        g := GetChar();
      }
      UngetChar();
    }

    /** The number branch of `lex()`, after reading the first digit: the
        digits that follow, up to and excluding the first non-digit. */
    method GetDigits() returns (digits: seq<char>)
      requires Valid()
      modifies this
      ensures Valid()
      ensures var j := DigitEnd(input, old(pos));
        digits == input[old(pos)..j] && State() == AfterScan(input, j)
    {
      ghost var start := pos;
      digits := [];
      var g := GetChar();
      while g.Char? && IsDigit(g.c)
        invariant Valid()
        invariant g.Char? ==> !failed && start < pos && g.c == input[pos - 1] &&
                              digits == input[start..pos - 1] && DigitEnd(input, start) == DigitEnd(input, pos - 1)
        invariant g.EndOfFile? ==> (failed && pos == |input| && start <= pos &&
                             digits == input[start..] && DigitEnd(input, start) == |input|)
        decreases |input| - pos + (if g.Char? then 1 else 0)
      {
        SliceSnoc(input, start, pos - 1);
        digits := digits + [g.c];
        g := GetChar();
      }
      UngetChar();
    }

    /** The string branch of `lex()`, after reading the opening quote `q`:
        the characters up to the matching quote, or `_STRING_ERROR` at the
        end of the input. */
    method GetString(q: char) returns (t: Token)
      requires Valid() && pos > 0 && input[pos - 1] == q
      modifies this
      ensures Valid()
      ensures t == StringToken(input, old(pos) - 1).0 && State() == StringToken(input, old(pos) - 1).1
    {
      ghost var start := pos;
      var text := [];
      var g := GetChar();
      while g != Char(q)
        invariant Valid()
        invariant g.Char? ==> !failed && start < pos && g.c == input[pos - 1] &&
                              text == input[start..pos - 1] && Find(input, start, q) == Find(input, pos - 1, q)
        invariant g.EndOfFile? ==> failed && pos == |input| && start <= pos && Find(input, start, q) == |input|
        decreases |input| - pos + (if g.Char? then 1 else 0)
      {
        if g == EndOfFile {
          return Token(StringError, "");
        }
        text := text + [g.c];
        g := GetChar();
      }
      t := Token(Str, text);
    }

    /** The part of `lex()` after reading a letter or `_`. */
    method LexLetter(c: char) returns (t: Token)
      requires Valid() && !failed && 0 < pos && input[pos - 1] == c && IsWordChar(c)
      modifies this
      ensures Valid()
      ensures t == LetterToken(input, old(pos) - 1).0 && State() == LetterToken(input, old(pos) - 1).1
    {
      ghost var at := pos - 1;
      if c == 'b' || c == 'B' {
        return Token(B, [c]);
      } else if c == 'o' || c == 'O' {
        return Token(O, [c]);
      } else if c == 's' || c == 'S' {
        return Token(S, [c]);
      }
      var word := GetWord();
      var wholeWord := [c] + word;
      assert wholeWord == input[at..WordEnd(input, at + 1)];
      if wholeWord == "call" {
        return Token(Call, wholeWord);
      }
      return Token(Identifier, wholeWord);
    }

    /** The part of `lex()` after reading a character that is neither a
        letter, nor `_`, nor a blank. */
    method LexSymbol(c: char) returns (t: Token)
      requires Valid() && !failed && 0 < pos && input[pos - 1] == c && !IsWordChar(c) && c != ' ' && c != '\n'
      modifies this
      ensures Valid()
      ensures t == SymbolToken(input, old(pos) - 1).0 && State() == SymbolToken(input, old(pos) - 1).1
    {
      ghost var at := pos - 1;
      if IsPunctuation(c) {
        t := Token(Punctuation(c), [c]);
      } else if c == '"' || c == '\'' {
        t := GetString(c);
      } else if IsDigit(c) {
        var digits := GetDigits();
        assert [c] + digits == input[at..DigitEnd(input, at + 1)];
        t := Token(Number, [c] + digits);
      } else if c == '#' {
        var line := GetLine();
        assert [c] + line == input[at..Find(input, at + 1, '\n')];
        assert input[at..|input|] == input[at..];
        t := Token(Comment, [c] + line);
      } else {
        t := Token(Error, [c]);
      }
    }

    /** `lex()`: skips blanks, then reads one token. */
    method Lex() returns (t: Token)
      requires Valid()
      modifies this
      ensures Valid()
      ensures t == NextToken(input, old(State())).0 && State() == NextToken(input, old(State())).1
    {
      var g := SkipBlanks();
      if g == EndOfFile {
        t := Token(Eof, "");
      } else {
        ghost var at := pos - 1;
        assert NextToken(input, old(State())) == TokenAt(input, at);
        if IsWordChar(g.c) {
          t := LexLetter(g.c);
        } else {
          t := LexSymbol(g.c);
        }
      }
    }

    /** The blank-skipping loop at the start of `lex()`: `g` is the first
        character that is not a blank (already read) or the end of the
        input, and `lex()` goes on from there as it would have from the
        start. */
    method SkipBlanks() returns (g: Got)
      requires Valid()
      modifies this
      ensures Valid() && g != Char(' ') && g != Char('\n')
      ensures g.Char? ==> !failed && 0 < pos && input[pos - 1] == g.c &&
                          NextToken(input, old(State())) == NextToken(input, Stream(pos - 1, false))
      ensures g.EndOfFile? ==> State() == Stream(|input|, true) && NextToken(input, old(State())) == NextToken(input, State())
    {
      ghost var start := State();
      g := GetChar();
      while g == Char(' ') || g == Char('\n')
        invariant Valid()
        invariant g.Char? ==> !failed && 0 < pos && input[pos - 1] == g.c &&
                              NextToken(input, start) == NextToken(input, Stream(pos - 1, false))
        invariant g.EndOfFile? ==> State() == Stream(|input|, true) && NextToken(input, start) == NextToken(input, State())
        decreases |input| - pos + (if g.Char? then 1 else 0)
      {
        BlankSkipped(input, pos - 1);
        g := GetChar();
        if g.EndOfFile? {
          EndReached(input);
        }
      }
    }
  }
}
