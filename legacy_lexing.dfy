// The lexer of the earlier parser at the root of the repository
// (rtl_parser.cpp:75-220). It reads the same stream as the lexer of
// src/rtl_parser.cpp (the `Stream` of `Lexing`), but it knows fewer
// characters: single letters `x`, `y`, `b`, `o`, `s`, the punctuation
// `, = $ / !`, numbers, comments and the word `rule`. Two inputs do not
// give a token at all:
//  - a character outside that list leaves the `do ... while` loop of
//    `lex()` and stops the program at `assert(0)`;
//  - an `r` that does not start the word `rule` (and is followed by
//    something) is put back together with the letters after it, so the
//    loop reads the same `r` again from the same place, forever.

module LegacyLexing {
  import opened Text
  import opened Tokens
  import Lexing

  /** The first position at or after `i` that does not hold a letter:
      where this version of `get_word` stops (it takes no `_`). */
  function LetterEnd(input: seq<char>, i: nat): (j: nat)
    requires i <= |input|
    ensures i <= j <= |input|
    ensures forall k :: i <= k < j ==> IsLetter(input[k])
    ensures j == |input| || !IsLetter(input[j])
    decreases |input| - i
  {
    if i == |input| || !IsLetter(input[i]) then i else LetterEnd(input, i + 1)
  }

  /** What one call of `lex()` does: hands out a token and leaves the
      stream at `after`, loops forever, or aborts. */
  datatype Lexed = Lexed(token: Token, after: Lexing.Stream) | Hang | Abort

  /** The characters that are a token by themselves. */
  predicate IsSingle(c: char) {
    c == 'x' || c == 'X' || c == 'y' || c == 'Y' || c == ',' || c == '=' || c == '$' ||
    c == 'b' || c == 'B' || c == 'o' || c == 'O' || c == 's' || c == 'S' || c == '/' || c == '!'
  }

  /** The kind of a single-character token. */
  function SingleKind(c: char): (k: TokenKind)
    requires IsSingle(c)
  {
    if c == 'x' || c == 'X' then X
    else if c == 'y' || c == 'Y' then Y
    else if c == 'b' || c == 'B' then B
    else if c == 'o' || c == 'O' then O
    else if c == 's' || c == 'S' then S
    else if c == ',' then Comma
    else if c == '=' then Equals
    else if c == '$' then Dollar
    else if c == '/' then Slash
    else ExclamationMark
  }

  /** The outcome of a step that handed out a token: the stream moved
      past it, or (for `eof`) is failed at the end. */
  predicate Advances(input: seq<char>, i: nat, r: Lexed) {
    r.Lexed? ==>
      Lexing.ValidStream(input, r.after) &&
      (r.token.kind != Eof ==> i < r.after.pos) &&
      (r.token.kind == Eof ==> r == Lexed(Token(Eof, ""), Lexing.Stream(|input|, true)))
  }

  /** The `r` branch of `lex()`, with the `r` at `i`: the word `rule`, or
      else the letters are put back. When the word ran into the end of the
      input the fail flag is set, the put-back does nothing and the next
      read answers `eof`; otherwise the stream is back at the `r`. */
  function RuleWord(input: seq<char>, i: nat): (r: Lexed)
    requires i < |input| && input[i] == 'r'
    ensures Advances(input, i, r)
  {
    var j := LetterEnd(input, i + 1);
    var word := input[i..j];
    if word == "rule" then Lexed(Token(Rule, word), Lexing.AfterScan(input, j))
    else if j == |input| then Lexed(Token(Eof, ""), Lexing.Stream(|input|, true))
    else Hang
  }

  /** What `lex()` does with the character at `i`, which is not a blank. */
  function TokenAt(input: seq<char>, i: nat): (r: Lexed)
    requires i < |input| && input[i] != ' ' && input[i] != '\n'
    ensures Advances(input, i, r)
  {
    var c := input[i];
    if IsSingle(c) then Lexed(Token(SingleKind(c), [c]), Lexing.Stream(i + 1, false))
    else if IsDigit(c) then
      var (t, s) := Lexing.NumberToken(input, i);
      Lexed(t, s)
    else if c == '#' then
      var (t, s) := Lexing.CommentToken(input, i);
      Lexed(t, s)
    else if c == 'r' then RuleWord(input, i)
    else Abort
  }

  /** One call of `lex()` on the stream `s`: blanks are skipped, then the
      next character decides. */
  function NextToken(input: seq<char>, s: Lexing.Stream): (r: Lexed)
    requires Lexing.ValidStream(input, s)
    ensures Advances(input, s.pos, r)
    decreases |input| - s.pos
  {
    if s.failed || s.pos == |input| then Lexed(Token(Eof, ""), Lexing.Stream(|input|, true))
    else if input[s.pos] == ' ' || input[s.pos] == '\n' then NextToken(input, Lexing.Stream(s.pos + 1, false))
    else TokenAt(input, s.pos)
  }

  /** How the run of tokens ends: `eof` (answered again on every later
      call), a call that never returns, or an abort. */
  datatype Ending = Finished | Hangs | Aborts

  /** The tokens `lex()` hands out from stream `s` on, and how the run
      ends. */
  function Tokenize(input: seq<char>, s: Lexing.Stream): (r: (seq<Token>, Ending))
    requires Lexing.ValidStream(input, s)
    ensures forall i :: 0 <= i < |r.0| ==> r.0[i].kind != Eof
    decreases |input| - s.pos
  {
    match NextToken(input, s)
    case Hang => ([], Hangs)
    case Abort => ([], Aborts)
    case Lexed(t, s') =>
      if t.kind == Eof then ([], Finished)
      else var (ts, e) := Tokenize(input, s'); ([t] + ts, e)
  }

  /** The stream before each token `Tokenize` lists, and the stream
      before the call that ends the run. */
  function Streams(input: seq<char>, s: Lexing.Stream): (ss: seq<Lexing.Stream>)
    requires Lexing.ValidStream(input, s)
    ensures |ss| > 0 && ss[0] == s
    decreases |input| - s.pos
  {
    match NextToken(input, s)
    case Hang => [s]
    case Abort => [s]
    case Lexed(t, s') => if t.kind == Eof then [s] else [s] + Streams(input, s')
  }

  /** What the call after the last token does. */
  function Final(input: seq<char>, e: Ending): Lexed {
    match e
    case Finished => Lexed(Token(Eof, ""), Lexing.Stream(|input|, true))
    case Hangs => Hang
    case Aborts => Abort
  }

  /** `ts` are the tokens `lex()` hands out one after the other, `ss[i]`
      the stream before `ts[i]`, and the call on the last stream of `ss`
      ends the run as `e` says. */
  predicate Table(input: seq<char>, ts: seq<Token>, e: Ending, ss: seq<Lexing.Stream>) {
    |ss| == |ts| + 1 &&
    (forall i :: 0 <= i < |ts| ==> ts[i].kind != Eof) &&
    (forall i :: 0 <= i < |ss| ==> Lexing.ValidStream(input, ss[i])) &&
    (forall i {:trigger NextToken(input, ss[i])} :: 0 <= i < |ss| ==>
       NextToken(input, ss[i]) == if i < |ts| then Lexed(ts[i], ss[i + 1]) else Final(input, e))
  }

  /** `Tokenize` and `Streams` from the same stream form a table. */
  lemma {:induction false} TableOf(input: seq<char>, s: Lexing.Stream)
    requires Lexing.ValidStream(input, s)
    ensures Table(input, Tokenize(input, s).0, Tokenize(input, s).1, Streams(input, s))
    decreases |input| - s.pos
  {
    match NextToken(input, s)
    case Hang =>
    case Abort =>
    case Lexed(t, s') =>
      if t.kind != Eof {
        TableOf(input, s');
        var ts, ss := Tokenize(input, s').0, Streams(input, s');
        var e := Tokenize(input, s').1;
        assert Tokenize(input, s) == ([t] + ts, e);
        assert Streams(input, s) == [s] + ss;
        forall i | 0 <= i < |ss| + 1
          ensures NextToken(input, ([s] + ss)[i]) ==
            if i < |ts| + 1 then Lexed(([t] + ts)[i], ([s] + ss)[i + 1]) else Final(input, e)
        {
          if i > 0 {
            assert ([s] + ss)[i] == ss[i - 1];
          }
        }
      }
  }

  /** One step along a token table: from the stream before token `n`
      the lexer yields token `n` and the stream after it; from the stream
      before the last call it ends the run (for a run that ends in `eof`,
      also from the failed stream at the end). */
  lemma TableStep(input: seq<char>, ts: seq<Token>, e: Ending, ss: seq<Lexing.Stream>, n: nat, s: Lexing.Stream)
    requires Table(input, ts, e, ss) && n <= |ts|
    requires s == ss[n] || (n == |ts| && e == Finished && s == Lexing.Stream(|input|, true))
    ensures Lexing.ValidStream(input, s)
    ensures NextToken(input, s) == if n < |ts| then Lexed(ts[n], ss[n + 1]) else Final(input, e)
  {
  }

  /** What a token of each kind looks like: the single characters are
      tokens of their own kind, a number is a whole run of digits, a
      comment runs to the end of its line, and the only word is `rule`.
      No identifier, operator, string or error token is ever handed out. */
  predicate Shaped(input: seq<char>, t: Token, s: Lexing.Stream) {
    match t.kind
    case Number => |t.text| > 0 && AllDigits(t.text) && (s.pos >= |input| || !IsDigit(input[s.pos]))
    case Comment => |t.text| > 0 && t.text[0] == '#' && '\n' !in t.text
    case Rule => t.text == "rule" && (s.pos >= |input| || !IsLetter(input[s.pos]))
    case _ => |t.text| == 1 && IsSingle(t.text[0]) && t.kind == SingleKind(t.text[0])
  }

  /** Every token this lexer hands out is one of the shapes above. */
  lemma {:induction false} TokenShape(input: seq<char>, s: Lexing.Stream)
    requires Lexing.ValidStream(input, s)
    ensures var r := NextToken(input, s); r.Lexed? && r.token.kind != Eof ==> Shaped(input, r.token, r.after)
    decreases |input| - s.pos
  {
    if s.failed || s.pos == |input| {
    } else if input[s.pos] == ' ' || input[s.pos] == '\n' {
      assert NextToken(input, s) == NextToken(input, Lexing.Stream(s.pos + 1, false));
      TokenShape(input, Lexing.Stream(s.pos + 1, false));
    } else {
      assert NextToken(input, s) == TokenAt(input, s.pos);
      TokenAtShape(input, s.pos);
    }
  }

  /** The same for the token read at a character that is not a blank. */
  lemma TokenAtShape(input: seq<char>, i: nat)
    requires i < |input| && input[i] != ' ' && input[i] != '\n'
    ensures var r := TokenAt(input, i); r.Lexed? && r.token.kind != Eof ==> Shaped(input, r.token, r.after)
  {
    var c := input[i];
    if !IsSingle(c) && IsDigit(c) {
      Lexing.NumberTokenShape(input, i);
    } else if !IsSingle(c) && c == '#' {
      Lexing.CommentTokenShape(input, i);
    }
  }

  /** An `r` that does not start the word `rule`, with something after
      its letters: `lex()` never returns. */
  lemma RWordHangs(input: seq<char>, i: nat)
    requires i < |input| && input[i] == 'r'
    requires LetterEnd(input, i + 1) < |input| && input[i..LetterEnd(input, i + 1)] != "rule"
    requires forall k :: 0 <= k < i ==> input[k] == ' ' || input[k] == '\n'
    ensures NextToken(input, Lexing.Stream(0, false)) == Hang
  {
    BlanksSkipped(input, 0, i);
  }

  /** The same `r`-word at the very end of the input: `lex()` answers
      `eof`, and the letters are lost. */
  lemma RWordAtEnd(input: seq<char>, i: nat)
    requires i < |input| && input[i] == 'r'
    requires LetterEnd(input, i + 1) == |input| && input[i..] != "rule"
    requires forall k :: 0 <= k < i ==> input[k] == ' ' || input[k] == '\n'
    ensures NextToken(input, Lexing.Stream(0, false)) == Lexed(Token(Eof, ""), Lexing.Stream(|input|, true))
  {
    BlanksSkipped(input, 0, i);
  }

  /** A character this lexer does not know, after blanks only: `lex()`
      aborts. */
  lemma UnknownAborts(input: seq<char>, i: nat)
    requires i < |input|
    requires !IsSingle(input[i]) && !IsDigit(input[i]) && input[i] != '#' && input[i] != 'r'
    requires input[i] != ' ' && input[i] != '\n'
    requires forall k :: 0 <= k < i ==> input[k] == ' ' || input[k] == '\n'
    ensures NextToken(input, Lexing.Stream(0, false)) == Abort
  {
    BlanksSkipped(input, 0, i);
  }

  /** Blanks from `i` up to `j` are skipped: `lex()` from `i` does what it
      does from `j`. */
  lemma {:induction false} BlanksSkipped(input: seq<char>, i: nat, j: nat)
    requires i <= j <= |input|
    requires forall k :: i <= k < j ==> input[k] == ' ' || input[k] == '\n'
    ensures NextToken(input, Lexing.Stream(i, false)) == NextToken(input, Lexing.Stream(j, false))
    decreases j - i
  {
    if i < j {
      BlanksSkipped(input, i + 1, j);
    }
  }

  /** An `r`-word that hangs stops `Tokenize` there: the tokens before
      it are all that is handed out. */
  lemma HangEndsRun(input: seq<char>, s: Lexing.Stream)
    requires Lexing.ValidStream(input, s) && NextToken(input, s) == Hang
    ensures Tokenize(input, s) == ([], Hangs)
  {
  }

  /** The lexer of the earlier version: the same stream as `Lexing.Lexer`,
      with its own `get_word` and `lex()`. */
  class LegacyLexer {
    const stream: Lexing.Lexer

    ghost predicate Valid()
      reads this, stream
    {
      stream.Valid()
    }

    /** `Lexer(stream)`: nothing read yet. */
    constructor (input: seq<char>)
      ensures Valid() && fresh(stream) && stream.input == input && stream.State() == Lexing.Stream(0, false)
    {
      stream := new Lexing.Lexer(input);
    }

    /** `get_word`: the letters from the read position on; the character
        that ends them is put back. */
    method GetWord() returns (word: seq<char>)
      requires Valid()
      modifies stream
      ensures Valid()
      ensures var j := LetterEnd(stream.input, old(stream.pos));
        word == stream.input[old(stream.pos)..j] && stream.State() == Lexing.AfterScan(stream.input, j)
    {
      ghost var start := stream.pos;
      ghost var input := stream.input;
      word := [];
      var g := stream.GetChar();
      while g.Char? && IsLetter(g.c)
        invariant Valid()
        invariant g.Char? ==> !stream.failed && start < stream.pos && g.c == input[stream.pos - 1] &&
                              word == input[start..stream.pos - 1] && LetterEnd(input, start) == LetterEnd(input, stream.pos - 1)
        invariant g.EndOfFile? ==> (stream.failed && stream.pos == |input| && start <= stream.pos &&
                             word == input[start..] && LetterEnd(input, start) == |input|)
        decreases |input| - stream.pos + (if g.Char? then 1 else 0)
      {
        SliceSnoc(input, start, stream.pos - 1);
        word := word + [g.c];
        g := stream.GetChar();
      }
      stream.UngetChar();
    }

    /** `unget_char(count)`: `count` put-backs, each of which does nothing
        once the fail flag is set. */
    method UngetChars(count: nat)
      requires Valid() && (stream.failed || count <= stream.pos)
      modifies stream
      ensures Valid()
      ensures stream.State() == if old(stream.failed) then old(stream.State()) else Lexing.Stream(old(stream.pos) - count, false)
    {
      var left: nat := count;
      while left > 0
        invariant Valid() && stream.failed == old(stream.failed)
        invariant stream.State() == if old(stream.failed) then old(stream.State()) else Lexing.Stream(old(stream.pos) - (count - left), false)
      {
        stream.UngetChar();
        left := left - 1;
      }
    }

    /** The `r` branch of `lex()`, after reading the `r`. */
    method LexWord() returns (r: Lexed)
      requires Valid() && !stream.failed && 0 < stream.pos && stream.input[stream.pos - 1] == 'r'
      modifies stream
      ensures Valid()
      ensures r == RuleWord(stream.input, old(stream.pos) - 1)
      ensures r.Lexed? ==> stream.State() == r.after
    {
      ghost var at := stream.pos - 1;
      var rest := GetWord();
      var word := ['r'] + rest;
      assert word == stream.input[at..LetterEnd(stream.input, at + 1)];
      if word == "rule" {
        return Lexed(Token(Rule, word), stream.State());
      }
      UngetChars(|word|);
      // get_more: the loop reads on. With the fail flag set that read
      // answers `eof`; otherwise the stream is back at the same `r`, and
      // the loop repeats these steps without end.
      if stream.failed {
        var g := stream.GetChar();
        return Lexed(Token(Eof, ""), stream.State());
      }
      return Hang;
    }

    /** The part of `lex()` after reading a character that is not a
        blank. */
    method LexChar(c: char) returns (r: Lexed)
      requires Valid() && !stream.failed && 0 < stream.pos && stream.input[stream.pos - 1] == c
      requires c != ' ' && c != '\n'
      modifies stream
      ensures Valid()
      ensures r == TokenAt(stream.input, old(stream.pos) - 1)
      ensures r.Lexed? ==> stream.State() == r.after
    {
      ghost var input := stream.input;
      ghost var at := stream.pos - 1;
      if IsSingle(c) {
        r := Lexed(Token(SingleKind(c), [c]), stream.State());
      } else if IsDigit(c) {
        var digits := stream.GetDigits();
        assert [c] + digits == input[at..Lexing.DigitEnd(input, at + 1)];
        r := Lexed(Token(Number, [c] + digits), stream.State());
      } else if c == '#' {
        var line := stream.GetLine();
        assert [c] + line == input[at..Lexing.Find(input, at + 1, '\n')];
        assert input[at..|input|] == input[at..];
        r := Lexed(Token(Comment, [c] + line), stream.State());
      } else if c == 'r' {
        r := LexWord();
      } else {
        // Out of the switch with `get_more` false: `assert(0)`.
        r := Abort;
      }
    }

    /** `lex()`: skips blanks, then reads one token, hangs or aborts. */
    method Lex() returns (r: Lexed)
      requires Valid()
      modifies stream
      ensures Valid()
      ensures r == NextToken(stream.input, old(stream.State()))
      ensures r.Lexed? ==> stream.State() == r.after
    {
      var g := SkipBlanks();
      if g == Lexing.EndOfFile {
        return Lexed(Token(Eof, ""), stream.State());
      }
      assert NextToken(stream.input, old(stream.State())) == TokenAt(stream.input, stream.pos - 1);
      r := LexChar(g.c);
    }

    /** The blank-skipping loop at the start of `lex()`: `g` is the first
        character that is not a blank (already read) or the end of the
        input, and `lex()` goes on from there as it would have from the
        start. */
    method SkipBlanks() returns (g: Lexing.Got)
      requires Valid()
      modifies stream
      ensures Valid() && g != Lexing.Char(' ') && g != Lexing.Char('\n')
      ensures g.Char? ==> !stream.failed && 0 < stream.pos && stream.input[stream.pos - 1] == g.c &&
                          NextToken(stream.input, old(stream.State())) == NextToken(stream.input, Lexing.Stream(stream.pos - 1, false))
      ensures g.EndOfFile? ==> stream.State() == Lexing.Stream(|stream.input|, true) &&
                               NextToken(stream.input, old(stream.State())) == NextToken(stream.input, stream.State())
    {
      ghost var input := stream.input;
      ghost var start := stream.State();
      g := stream.GetChar();
      while g == Lexing.Char(' ') || g == Lexing.Char('\n')
        invariant Valid()
        invariant g.Char? ==> !stream.failed && 0 < stream.pos && input[stream.pos - 1] == g.c &&
                              NextToken(input, start) == NextToken(input, Lexing.Stream(stream.pos - 1, false))
        invariant g.EndOfFile? ==> stream.State() == Lexing.Stream(|input|, true) &&
                                   NextToken(input, start) == NextToken(input, stream.State())
        decreases |input| - stream.pos + (if g.Char? then 1 else 0)
      {
        ghost var here := stream.pos;
        Lexing.BlankSkipped(input, here - 1);
        g := stream.GetChar();
        if g.EndOfFile? {
          Lexing.EndReached(input);
        } else {
          assert stream.pos - 1 == here;
        }
      }
    }
  }
}
