// What the lexer of src/rtl_parser.cpp makes of the text `dump_to_file`
// writes (src/board.cpp:138-208): the header becomes the comment, the three
// assignments and the rule; every piece of the body becomes the tokens of
// its count and marker; and the newlines the layout inserts vanish.
//
// The argument follows the lexer's token table (`Lexing.Table`): the text
// is cut into segments of one token each, with the blanks before it, and
// each segment takes the table one row further.

module OutputLexing {
  import opened Text
  import opened Tokens
  import opened Lexing
  import opened Encoding
  import opened EncodingFacts
  import opened Grids

  /** In the token table `T`/`S`, row `n` starts at position `i`, the
      rows from `n` on begin with the tokens `ts`, and the row after them
      starts at position `j`. */
  predicate Reads(T: seq<Token>, S: seq<Stream>, n: nat, i: nat, ts: seq<Token>, j: nat) {
    |S| == |T| + 1 && n + |ts| <= |T| &&
    S[n] == Stream(i, false) && S[n + |ts|] == Stream(j, false) &&
    T[n..n + |ts|] == ts
  }

  /** Reading `ts` and then `us` reads `ts + us`. */
  lemma ReadsThen(T: seq<Token>, S: seq<Stream>, n: nat, i: nat, ts: seq<Token>, j: nat, us: seq<Token>, k: nat)
    requires Reads(T, S, n, i, ts, j) && Reads(T, S, n + |ts|, j, us, k)
    ensures Reads(T, S, n, i, ts + us, k)
  {
    assert T[n..n + |ts + us|] == T[n..n + |ts|] + T[n + |ts|..n + |ts| + |us|];
  }

  /** Reading one token and then `us` reads both. */
  lemma ReadsCons(T: seq<Token>, S: seq<Stream>, n: nat, i: nat, t: Token, j: nat, us: seq<Token>, k: nat)
    requires Reads(T, S, n, i, [t], j) && Reads(T, S, n + 1, j, us, k)
    ensures Reads(T, S, n, i, [t] + us, k)
  {
    ReadsThen(T, S, n, i, [t], j, us, k);
  }

  predicate IsBlank(c: char) {
    c == ' ' || c == '\n'
  }

  predicate AllBlank(s: seq<char>) {
    forall k :: 0 <= k < |s| ==> IsBlank(s[k])
  }

  /** Blanks before a token are skipped. */
  lemma {:induction false} SkipBlanks(input: seq<char>, i: nat, j: nat)
    requires i <= j <= |input| && forall k :: i <= k < j ==> IsBlank(input[k])
    ensures NextToken(input, Stream(i, false)) == NextToken(input, Stream(j, false))
    decreases j - i
  {
    if i < j {
      SkipBlanks(input, i + 1, j);
    }
  }

  /** A character that is a token by itself: the letters `b`, `o`, `s` in
      either case, and the punctuation. */
  predicate IsSingle(c: char) {
    c in "bBoOsS" || IsPunctuation(c)
  }

  /** The token of such a character. */
  function SingleToken(c: char): (t: Token)
    requires IsSingle(c)
    ensures t.text == [c] && t.kind != Eof && !IsErrorKind(t.kind)
  {
    if c == 'b' || c == 'B' then Token(B, [c])
    else if c == 'o' || c == 'O' then Token(O, [c])
    else if c == 's' || c == 'S' then Token(S, [c])
    else Token(Punctuation(c), [c])
  }

  /** `DigitEnd` stops at the first non-digit. */
  lemma {:induction false} DigitEndIs(input: seq<char>, a: nat, j: nat)
    requires a <= j < |input| && !IsDigit(input[j])
    requires forall k :: a <= k < j ==> IsDigit(input[k])
    ensures DigitEnd(input, a) == j
    decreases j - a
  {
    if a < j {
      DigitEndIs(input, a + 1, j);
    }
  }

  /** `WordEnd` stops at the first character that is neither a letter nor
      `_`. */
  lemma {:induction false} WordEndIs(input: seq<char>, a: nat, j: nat)
    requires a <= j < |input| && !IsWordChar(input[j])
    requires forall k :: a <= k < j ==> IsWordChar(input[k])
    ensures WordEnd(input, a) == j
    decreases j - a
  {
    if a < j {
      WordEndIs(input, a + 1, j);
    }
  }

  /** `Find` stops at the first occurrence. */
  lemma {:induction false} FindIs(input: seq<char>, a: nat, j: nat, c: char)
    requires a <= j < |input| && input[j] == c
    requires forall k :: a <= k < j ==> input[k] != c
    ensures Find(input, a, c) == j
    decreases j - a
  {
    if a < j {
      FindIs(input, a + 1, j, c);
    }
  }

  /** What one segment holds after its blanks: a one-character token, a
      number, an identifier, or a comment line with its newline. */
  datatype Core = Lone(c: char) | Digits(d: seq<char>) | Name(w: seq<char>) | Note(t: seq<char>)

  /** One token and the blanks before it. */
  datatype Seg = Seg(lead: seq<char>, core: Core)

  predicate GoodCore(core: Core) {
    match core
    case Lone(c) => IsSingle(c)
    case Digits(d) => |d| > 0 && AllDigits(d)
    case Name(w) => PlainName(w)
    case Note(t) => |t| > 0 && t[0] == '#' && '\n' !in t
  }

  predicate GoodSeg(g: Seg) {
    AllBlank(g.lead) && GoodCore(g.core)
  }

  function CoreText(core: Core): seq<char> {
    match core
    case Lone(c) => [c]
    case Digits(d) => d
    case Name(w) => w
    case Note(t) => t + ['\n']
  }

  function SegText(g: Seg): seq<char> {
    g.lead + CoreText(g.core)
  }

  /** The token of a core; a character that is no token by itself reads
      as an error token. */
  function CoreToken(core: Core): (t: Token)
    ensures t.kind != Eof
  {
    match core
    case Lone(c) => if IsSingle(c) then SingleToken(c) else Token(Error, [c])
    case Digits(d) => Token(Number, d)
    case Name(w) => Token(Identifier, w)
    case Note(t) => Token(Comment, t)
  }

  /** The character after a number or a word ends it. */
  predicate Ends(core: Core, c: char) {
    (core.Digits? ==> !IsDigit(c)) && (core.Name? ==> !IsWordChar(c))
  }

  /** The core `core` stands at position `j`, followed by a character that
      ends it. */
  predicate CorePlaced(input: seq<char>, j: nat, core: Core) {
    j + |CoreText(core)| < |input| && input[j..j + |CoreText(core)|] == CoreText(core) &&
    Ends(core, input[j + |CoreText(core)|])
  }

  lemma SingleNext(input: seq<char>, j: nat, core: Core)
    requires core.Lone? && GoodCore(core) && CorePlaced(input, j, core)
    ensures NextToken(input, Stream(j, false)) == (CoreToken(core), Stream(j + |CoreText(core)|, false))
  {
    var c := core.c;
    assert input[j] == CoreText(core)[0] == c;
    if c in "bBoOsS" {
      assert NextToken(input, Stream(j, false)) == LetterToken(input, j);
    } else {
      assert NextToken(input, Stream(j, false)) == SymbolToken(input, j);
    }
  }

  lemma NumberNext(input: seq<char>, j: nat, core: Core)
    requires core.Digits? && GoodCore(core) && CorePlaced(input, j, core)
    ensures NextToken(input, Stream(j, false)) == (CoreToken(core), Stream(j + |CoreText(core)|, false))
  {
    var d := core.d;
    assert input[j] == d[0];
    forall k | j + 1 <= k < j + |d|
      ensures IsDigit(input[k])
    {
      assert input[k] == d[k - j];
    }
    DigitEndIs(input, j + 1, j + |d|);
  }

  lemma WordNext(input: seq<char>, j: nat, core: Core)
    requires core.Name? && GoodCore(core) && CorePlaced(input, j, core)
    ensures NextToken(input, Stream(j, false)) == (CoreToken(core), Stream(j + |CoreText(core)|, false))
  {
    var w := core.w;
    assert input[j] == w[0];
    forall k | j + 1 <= k < j + |w|
      ensures IsWordChar(input[k])
    {
      assert input[k] == w[k - j];
    }
    WordEndIs(input, j + 1, j + |w|);
  }

  lemma NoteNext(input: seq<char>, j: nat, core: Core)
    requires core.Note? && GoodCore(core) && CorePlaced(input, j, core)
    ensures NextToken(input, Stream(j, false)) == (CoreToken(core), Stream(j + |CoreText(core)|, false))
  {
    var t := core.t;
    var text := CoreText(core);
    assert input[j] == t[0];
    forall k | j + 1 <= k < j + |t|
      ensures input[k] != '\n'
    {
      assert input[k] == t[k - j];
    }
    assert input[j + |t|] == text[|t|] == '\n';
    FindIs(input, j + 1, j + |t|, '\n');
    assert input[j..j + |t|] == text[..|t|] == t;
  }

  /** Where a core stands, the lexer reads its token and stops right after
      it. */
  lemma CoreNext(input: seq<char>, j: nat, core: Core)
    requires GoodCore(core) && CorePlaced(input, j, core)
    ensures NextToken(input, Stream(j, false)) == (CoreToken(core), Stream(j + |CoreText(core)|, false))
  {
    if core.Lone? {
      SingleNext(input, j, core);
    } else if core.Digits? {
      NumberNext(input, j, core);
    } else if core.Name? {
      WordNext(input, j, core);
    } else {
      NoteNext(input, j, core);
    }
  }

  /** The segment `g` stands at position `i`, followed by a character that
      ends its token. */
  predicate Placed(input: seq<char>, i: nat, g: Seg) {
    i + |SegText(g)| < |input| && input[i..i + |SegText(g)|] == SegText(g) &&
    Ends(g.core, input[i + |SegText(g)|])
  }

  lemma SliceSplit(input: seq<char>, i: nat, a: seq<char>, b: seq<char>)
    requires i + |a + b| <= |input| && input[i..i + |a + b|] == a + b
    ensures input[i..i + |a|] == a && input[i + |a|..i + |a| + |b|] == b
  {
    assert input[i..i + |a|] == (a + b)[..|a|];
    assert input[i + |a|..i + |a| + |b|] == (a + b)[|a|..];
  }

  /** Where a segment stands, the lexer skips its blanks, reads its token
      and stops right after it. */
  lemma SegNext(input: seq<char>, i: nat, g: Seg)
    requires GoodSeg(g) && Placed(input, i, g)
    ensures NextToken(input, Stream(i, false)) == (CoreToken(g.core), Stream(i + |SegText(g)|, false))
  {
    var j := i + |g.lead|;
    SegParts(input, i, g);
    SkipBlanks(input, i, j);
    CoreNext(input, j, g.core);
  }

  /** A segment standing at `i`: blanks, then its core standing right
      after them. */
  lemma SegParts(input: seq<char>, i: nat, g: Seg)
    requires GoodSeg(g) && Placed(input, i, g)
    ensures i + |g.lead| <= |input| && forall k :: i <= k < i + |g.lead| ==> IsBlank(input[k])
    ensures CorePlaced(input, i + |g.lead|, g.core)
    ensures i + |g.lead| + |CoreText(g.core)| == i + |SegText(g)|
  {
    var j := i + |g.lead|;
    SliceSplit(input, i, g.lead, CoreText(g.core));
    assert j + |CoreText(g.core)| == i + |SegText(g)|;
    assert CorePlaced(input, j, g.core);
    BlanksAt(input, i, g.lead);
  }

  /** Blanks standing at `i` are blanks of the input. */
  lemma BlanksAt(input: seq<char>, i: nat, lead: seq<char>)
    requires AllBlank(lead) && i + |lead| <= |input| && input[i..i + |lead|] == lead
    ensures forall k :: i <= k < i + |lead| ==> IsBlank(input[k])
  {
    forall k | i <= k < i + |lead|
      ensures IsBlank(input[k])
    {
      assert input[k] == lead[k - i];
    }
  }

  /** A token other than `eof` read from a row of the table is that row's
      token, and the next row starts where it stops. */
  lemma TableRow(input: seq<char>, T: seq<Token>, S: seq<Stream>, n: nat, t: Token, s: Stream)
    requires Table(input, T, S) && n < |S| && NextToken(input, S[n]) == (t, s) && t.kind != Eof
    ensures n < |T| && T[n] == t && S[n + 1] == s
  {
  }

  /** A segment takes the token table one row further. */
  lemma SegReads(input: seq<char>, T: seq<Token>, S: seq<Stream>, n: nat, i: nat, g: Seg)
    requires Table(input, T, S) && n < |S| && S[n] == Stream(i, false)
    requires GoodSeg(g) && Placed(input, i, g)
    ensures Reads(T, S, n, i, [CoreToken(g.core)], i + |SegText(g)|)
  {
    SegNext(input, i, g);
    TableRow(input, T, S, n, CoreToken(g.core), Stream(i + |SegText(g)|, false));
  }

  /** The first character of a segment. */
  function FirstChar(g: Seg): char
    requires GoodCore(g.core)
  {
    if g.lead != [] then g.lead[0] else CoreText(g.core)[0]
  }

  /** Segments one after the other. */
  datatype Segs = Done | More(g: Seg, rest: Segs)

  predicate AllGood(gs: Segs) {
    gs.Done? || (GoodSeg(gs.g) && AllGood(gs.rest))
  }

  /** The character after the first segment of `gs`, `after` following
      the last. */
  function After(gs: Segs, after: char): char
    requires gs.More? && AllGood(gs)
  {
    if gs.rest.More? then
      assert AllGood(gs.rest);
      FirstChar(gs.rest.g)
    else after
  }

  /** Every number and word of `gs` is ended by the segment after it, and
      the last one by `after`. */
  predicate Ended(gs: Segs, after: char)
    requires AllGood(gs)
  {
    gs.Done? || (Ends(gs.g.core, After(gs, after)) && Ended(gs.rest, after))
  }

  function SegsText(gs: Segs): seq<char> {
    if gs.Done? then [] else SegText(gs.g) + SegsText(gs.rest)
  }

  function SegsTokens(gs: Segs): seq<Token> {
    if gs.Done? then [] else [CoreToken(gs.g.core)] + SegsTokens(gs.rest)
  }

  /** The character after the first segment of a list. */
  lemma AfterFirst(input: seq<char>, j: nat, gs: Segs, after: char)
    requires gs.More? && AllGood(gs)
    requires j + |SegsText(gs.rest)| < |input| && input[j..j + |SegsText(gs.rest)|] == SegsText(gs.rest)
    requires input[j + |SegsText(gs.rest)|] == after
    ensures input[j] == After(gs, after)
  {
    if gs.rest.More? {
      var g1 := gs.rest.g;
      assert SegsText(gs.rest) == SegText(g1) + SegsText(gs.rest.rest);
      assert input[j] == input[j..j + |SegsText(gs.rest)|][0] == SegText(g1)[0];
    }
  }

  /** The first segment of a list stands where the list does, followed by
      the first character of the rest. */
  lemma FirstPlaced(input: seq<char>, i: nat, gs: Segs, after: char)
    requires gs.More? && AllGood(gs) && Ended(gs, after)
    requires i + |SegsText(gs)| < |input| && input[i..i + |SegsText(gs)|] == SegsText(gs)
    requires input[i + |SegsText(gs)|] == after
    ensures Placed(input, i, gs.g)
    ensures var j := i + |SegText(gs.g)|;
      j + |SegsText(gs.rest)| < |input| && input[j..j + |SegsText(gs.rest)|] == SegsText(gs.rest)
  {
    var first, rest := SegText(gs.g), SegsText(gs.rest);
    assert SegsText(gs) == first + rest;
    SplitBefore(input, i, first, rest, after);
    var j := i + |first|;
    AfterFirst(input, j, gs, after);
    assert Ends(gs.g.core, input[j]);
  }

  /** Text `a + b` standing at `i`, followed by `c`: `a` stands at `i`
      and `b` right after it, still followed by `c`. */
  lemma SplitBefore(input: seq<char>, i: nat, a: seq<char>, b: seq<char>, c: char)
    requires i + |a + b| < |input| && input[i..i + |a + b|] == a + b && input[i + |a + b|] == c
    ensures i + |a| + |b| < |input| && input[i..i + |a|] == a
    ensures input[i + |a|..i + |a| + |b|] == b && input[i + |a| + |b|] == c
  {
    SliceSplit(input, i, a, b);
  }

  /** Segments one after the other take the table one row further each. */
  lemma {:induction false} SegsReads(input: seq<char>, T: seq<Token>, S: seq<Stream>, n: nat, i: nat, gs: Segs, after: char)
    requires Table(input, T, S) && n < |S| && S[n] == Stream(i, false)
    requires AllGood(gs) && Ended(gs, after)
    requires i + |SegsText(gs)| < |input| && input[i..i + |SegsText(gs)|] == SegsText(gs)
    requires input[i + |SegsText(gs)|] == after
    ensures Reads(T, S, n, i, SegsTokens(gs), i + |SegsText(gs)|)
    decreases gs
  {
    if gs.Done? {
      assert T[n..n] == [];
    } else {
      var j := i + |SegText(gs.g)|;
      FirstSegReads(input, T, S, n, i, gs, after);
      SegsReads(input, T, S, n + 1, j, gs.rest, after);
      SegsSplit(gs);
      ReadsCons(T, S, n, i, CoreToken(gs.g.core), j, SegsTokens(gs.rest), j + |SegsText(gs.rest)|);
    }
  }

  /** The first segment of a list takes the table one row further, and
      the rest of the list stands where it stops. */
  lemma FirstSegReads(input: seq<char>, T: seq<Token>, S: seq<Stream>, n: nat, i: nat, gs: Segs, after: char)
    requires Table(input, T, S) && n < |S| && S[n] == Stream(i, false)
    requires gs.More? && AllGood(gs) && Ended(gs, after)
    requires i + |SegsText(gs)| < |input| && input[i..i + |SegsText(gs)|] == SegsText(gs)
    requires input[i + |SegsText(gs)|] == after
    ensures var j := i + |SegText(gs.g)|;
      Reads(T, S, n, i, [CoreToken(gs.g.core)], j) && n + 1 < |S| && S[n + 1] == Stream(j, false) &&
      AllGood(gs.rest) && Ended(gs.rest, after) &&
      j + |SegsText(gs.rest)| < |input| && input[j..j + |SegsText(gs.rest)|] == SegsText(gs.rest) &&
      input[j + |SegsText(gs.rest)|] == after
  {
    SegsSplit(gs);
    FirstPlaced(input, i, gs, after);
    SegReads(input, T, S, n, i, gs.g);
  }

  /** A list of segments is its first segment and the rest. */
  lemma SegsSplit(gs: Segs)
    requires gs.More?
    ensures SegsTokens(gs) == [CoreToken(gs.g.core)] + SegsTokens(gs.rest)
    ensures |SegsText(gs)| == |SegText(gs.g)| + |SegsText(gs.rest)|
  {
  }

  /** The pieces the body is written in: runs, `$` and `!`. */
  predicate BodyPiece(p: Piece) {
    RunPiece(p) || p == Chr('$') || p == Chr('!')
  }

  /** The tokens of a piece of the body: its count, if any, as a number,
      then its marker. */
  function PieceTokens(p: Piece): seq<Token> {
    match p
    case Chr(c) => if IsSingle(c) then [SingleToken(c)] else []
    case Str(s) =>
      if |s| > 0 && IsSingle(s[|s| - 1]) then [Token(Number, s[..|s| - 1]), SingleToken(s[|s| - 1])] else []
  }

  /** The tokens of the pieces, in order. */
  function PiecesTokens(ps: seq<Piece>): seq<Token> {
    if ps == [] then [] else PiecesTokens(ps[..|ps| - 1]) + PieceTokens(ps[|ps| - 1])
  }

  lemma {:induction false} PiecesTokensAppend(a: seq<Piece>, b: seq<Piece>)
    ensures PiecesTokens(a + b) == PiecesTokens(a) + PiecesTokens(b)
    decreases |b|
  {
    if b == [] {
      assert a + b == a;
    } else {
      var b', last := b[..|b| - 1], b[|b| - 1];
      assert (a + b)[..|a + b| - 1] == a + b';
      assert (a + b)[|a + b| - 1] == last;
      PiecesTokensAppend(a, b');
      var x, y, z := PiecesTokens(a), PiecesTokens(b'), PieceTokens(last);
      assert PiecesTokens(a + b) == (x + y) + z;
      assert PiecesTokens(b) == y + z;
      assert (x + y) + z == x + (y + z);
    }
  }

  /** A count and its marker, after the blanks `brk`. */
  lemma RunReads(input: seq<char>, T: seq<Token>, S: seq<Stream>, n: nat, i: nat, brk: seq<char>, d: seq<char>, c: char)
    requires Table(input, T, S) && n < |S| && S[n] == Stream(i, false)
    requires AllBlank(brk) && |d| > 0 && AllDigits(d) && (c == 'o' || c == 'b')
    requires i + |brk + d + [c]| < |input| && input[i..i + |brk + d + [c]|] == brk + d + [c]
    ensures Reads(T, S, n, i, [Token(Number, d), SingleToken(c)], i + |brk + d + [c]|)
  {
    var g1, g2 := Seg(brk, Digits(d)), Seg([], Lone(c));
    var j := i + |brk + d|;
    SliceSplit(input, i, brk + d, [c]);
    assert input[j] == c;
    SegReads(input, T, S, n, i, g1);
    assert SegText(g2) == [c];
    SegReads(input, T, S, n + 1, j, g2);
    ReadsCons(T, S, n, i, Token(Number, d), j, [SingleToken(c)], j + 1);
  }

  /** A piece of the body after the blanks `brk`. */
  lemma PieceReads(input: seq<char>, T: seq<Token>, S: seq<Stream>, n: nat, i: nat, brk: seq<char>, p: Piece)
    requires Table(input, T, S) && n < |S| && S[n] == Stream(i, false)
    requires AllBlank(brk) && BodyPiece(p)
    requires i + |brk + PieceText(p)| < |input| && input[i..i + |brk + PieceText(p)|] == brk + PieceText(p)
    ensures Reads(T, S, n, i, PieceTokens(p), i + |brk + PieceText(p)|)
  {
    match p
    case Chr(c) =>
      SegReads(input, T, S, n, i, Seg(brk, Lone(c)));
    case Str(s) =>
      StrReads(input, T, S, n, i, brk, s);
  }

  /** A count and its marker, written as one string. */
  lemma StrReads(input: seq<char>, T: seq<Token>, S: seq<Stream>, n: nat, i: nat, brk: seq<char>, s: seq<char>)
    requires Table(input, T, S) && n < |S| && S[n] == Stream(i, false)
    requires AllBlank(brk) && BodyPiece(Piece.Str(s))
    requires i + |brk + s| < |input| && input[i..i + |brk + s|] == brk + s
    ensures Reads(T, S, n, i, PieceTokens(Piece.Str(s)), i + |brk + s|)
  {
    var d, c := s[..|s| - 1], s[|s| - 1];
    assert s == d + [c];
    Associate(brk, d, [c]);
    RunReads(input, T, S, n, i, brk, d, c);
  }

  /** The newline, if any, that the layout puts before the last piece. */
  function BreakBefore(ps: seq<Piece>): (brk: seq<char>)
    requires ps != []
    ensures brk == [] || brk == ['\n']
  {
    if BreaksBefore(Layout(ps[..|ps| - 1]).1, ps[|ps| - 1]) then ['\n'] else []
  }

  /** The layout of the pieces, the last one split off. */
  lemma LayoutSnoc(ps: seq<Piece>)
    requires ps != []
    ensures Layout(ps).0 == Layout(ps[..|ps| - 1]).0 + BreakBefore(ps) + PieceText(ps[|ps| - 1])
  {
  }

  /** A piece after text that reads as `ts`. */
  lemma PieceAfter(input: seq<char>, T: seq<Token>, S: seq<Stream>, n: nat, i: nat, pre: seq<char>, ts: seq<Token>, brk: seq<char>, p: Piece, full: seq<char>)
    requires Table(input, T, S) && Reads(T, S, n, i, ts, i + |pre|)
    requires AllBlank(brk) && BodyPiece(p) && full == pre + brk + PieceText(p)
    requires i + |full| < |input| && input[i..i + |full|] == full
    ensures Reads(T, S, n, i, ts + PieceTokens(p), i + |full|)
  {
    assert full == pre + (brk + PieceText(p));
    SliceSplit(input, i, pre, brk + PieceText(p));
    PieceReads(input, T, S, n + |ts|, i + |pre|, brk, p);
    ReadsThen(T, S, n, i, ts, i + |pre|, PieceTokens(p), i + |full|);
  }

  /** Text at `i` begins with each of its prefixes. */
  lemma SlicePrefix(input: seq<char>, i: nat, full: seq<char>, pre: seq<char>)
    requires i + |full| <= |input| && input[i..i + |full|] == full
    requires |pre| <= |full| && full[..|pre|] == pre
    ensures input[i..i + |pre|] == pre
  {
    assert input[i..i + |pre|] == input[i..i + |full|][..|pre|];
  }

  /** Every piece is a piece of the body, stated from the last piece back. */
  predicate AllBody(ps: seq<Piece>) {
    ps == [] || (AllBody(ps[..|ps| - 1]) && BodyPiece(ps[|ps| - 1]))
  }

  lemma {:induction false} AllBodyOf(ps: seq<Piece>)
    requires forall k :: 0 <= k < |ps| ==> BodyPiece(ps[k])
    ensures AllBody(ps)
    decreases |ps|
  {
    if ps != [] {
      var init := ps[..|ps| - 1];
      assert forall k :: 0 <= k < |init| ==> init[k] == ps[k];
      AllBodyOf(init);
    }
  }

  /** The first piece of the layout, after the blanks `lead`. */
  lemma LayoutFirst(input: seq<char>, T: seq<Token>, S: seq<Stream>, n: nat, i: nat, lead: seq<char>, ps: seq<Piece>)
    requires Table(input, T, S) && n < |S| && S[n] == Stream(i, false)
    requires AllBlank(lead) && |ps| == 1 && BodyPiece(ps[0])
    requires i + |lead + Layout(ps).0| < |input| && input[i..i + |lead + Layout(ps).0|] == lead + Layout(ps).0
    ensures Reads(T, S, n, i, PiecesTokens(ps), i + |lead + Layout(ps).0|)
  {
    var brk := BreakBefore(ps);
    LayoutSnoc(ps);
    assert ps[..0] == [];
    assert lead + Layout(ps).0 == (lead + brk) + PieceText(ps[0]);
    assert PiecesTokens(ps) == PieceTokens(ps[0]);
    PieceReads(input, T, S, n, i, lead + brk, ps[0]);
  }

  /** The laid-out body, after the blanks `lead`, reads as the tokens of
      its pieces: the newlines `out_char` and `out_string` insert never
      split or join a token. */
  lemma {:induction false} LayoutReads(input: seq<char>, T: seq<Token>, S: seq<Stream>, n: nat, i: nat, lead: seq<char>, ps: seq<Piece>)
    requires Table(input, T, S) && n < |S| && S[n] == Stream(i, false)
    requires AllBlank(lead) && ps != [] && AllBody(ps)
    requires i + |lead + Layout(ps).0| < |input| && input[i..i + |lead + Layout(ps).0|] == lead + Layout(ps).0
    ensures Reads(T, S, n, i, PiecesTokens(ps), i + |lead + Layout(ps).0|)
    decreases |ps|
  {
    var init, last := ps[..|ps| - 1], ps[|ps| - 1];
    assert AllBody(init) && BodyPiece(last);
    if init == [] {
      assert |ps| == 1 && ps[0] == last;
      LayoutFirst(input, T, S, n, i, lead, ps);
    } else {
      var brk := BreakBefore(ps);
      LayoutSnoc(ps);
      var pre, full := lead + Layout(init).0, lead + Layout(ps).0;
      assert full == pre + brk + PieceText(last);
      SlicePrefix(input, i, full, pre);
      LayoutReads(input, T, S, n, i, lead, init);
      PieceAfter(input, T, S, n, i, pre, PiecesTokens(init), brk, last, full);
      assert PiecesTokens(ps) == PiecesTokens(init) + PieceTokens(last);
    }
  }

  /** `<name> = <d>,` after the blanks `lead`, then `rest`. */
  function Assignment(lead: seq<char>, name: seq<char>, d: seq<char>, rest: Segs): Segs {
    More(Seg(lead, Name(name)), More(Seg(" ", Lone('=')), More(Seg(" ", Digits(d)), More(Seg([], Lone(',')), rest))))
  }

  /** ` rule = B<bd>/S<sd>`. */
  function RuleSegs(bd: seq<char>, sd: seq<char>): Segs {
    More(Seg(" ", Name("rule")), More(Seg(" ", Lone('=')), More(Seg(" ", Lone('B')), More(Seg([], Digits(bd)),
      More(Seg([], Lone('/')), More(Seg([], Lone('S')), More(Seg([], Digits(sd)), Done)))))))
  }

  /** The header `dump_to_file` writes, as segments: `wd`, `hd`, `bd` and
      `sd` are the width, the height and the two rule sets in decimal. The
      newline that ends it starts the body. */
  function HeaderSegs(wd: seq<char>, hd: seq<char>, bd: seq<char>, sd: seq<char>): Segs {
    More(Seg([], Note("# Auto generated map file")), Assignment([], "x", wd, Assignment(" ", "y", hd, RuleSegs(bd, sd))))
  }

  /** The tokens the header is read as. */
  function HeaderTokens(wd: seq<char>, hd: seq<char>, bd: seq<char>, sd: seq<char>): seq<Token> {
    [Token(Comment, "# Auto generated map file"),
     Token(Identifier, "x"), Token(Equals, "="), Token(Number, wd), Token(Comma, ","),
     Token(Identifier, "y"), Token(Equals, "="), Token(Number, hd), Token(Comma, ","),
     Token(Identifier, "rule"), Token(Equals, "="), Token(B, "B"), Token(Number, bd),
     Token(Slash, "/"), Token(S, "S"), Token(Number, sd)]
  }

  predicate Decimal(d: seq<char>) {
    |d| > 0 && AllDigits(d)
  }

  /** A word other than `call` that starts with none of `b`, `o`, `s`. */
  predicate PlainName(w: seq<char>) {
    |w| > 0 && w[0] !in "bBoOsS" && w != "call" && forall k :: 0 <= k < |w| ==> IsWordChar(w[k])
  }

  /** One more segment in front of a list. */
  lemma SegsCons(g: Seg, rest: Segs, after: char)
    requires GoodSeg(g) && AllGood(rest) && Ended(rest, after)
    requires Ends(g.core, if rest.More? then FirstChar(rest.g) else after)
    ensures AllGood(More(g, rest)) && Ended(More(g, rest), after)
  {
  }

  lemma TokensCons(g: Seg, rest: Segs)
    ensures SegsTokens(More(g, rest)) == [CoreToken(g.core)] + SegsTokens(rest)
  {
  }

  lemma AssignmentGood(lead: seq<char>, name: seq<char>, d: seq<char>, rest: Segs, after: char)
    requires (lead == [] || lead == " ") && PlainName(name) && Decimal(d)
    requires AllGood(rest) && Ended(rest, after)
    requires rest.More? ==> FirstChar(rest.g) == ' '
    ensures AllGood(Assignment(lead, name, d, rest)) && Ended(Assignment(lead, name, d, rest), after)
  {
    assert AllBlank(" ") && AllBlank([]);
    var r3 := More(Seg([], Lone(',')), rest);
    var r2 := More(Seg(" ", Digits(d)), r3);
    var r1 := More(Seg(" ", Lone('=')), r2);
    SegsCons(Seg([], Lone(',')), rest, after);
    SegsCons(Seg(" ", Digits(d)), r3, after);
    SegsCons(Seg(" ", Lone('=')), r2, after);
    SegsCons(Seg(lead, Name(name)), r1, after);
  }

  lemma AssignmentText(lead: seq<char>, name: seq<char>, d: seq<char>, rest: Segs)
    ensures SegsText(Assignment(lead, name, d, rest)) == lead + name + " = " + d + "," + SegsText(rest)
  {
    var r3 := More(Seg([], Lone(',')), rest);
    var r2 := More(Seg(" ", Digits(d)), r3);
    assert SegsText(r2) == " " + d + "," + SegsText(rest);
  }

  lemma AssignmentTokens(lead: seq<char>, name: seq<char>, d: seq<char>, rest: Segs)
    ensures SegsTokens(Assignment(lead, name, d, rest)) ==
      [Token(Identifier, name), Token(Equals, "="), Token(Number, d), Token(Comma, ",")] + SegsTokens(rest)
  {
    var r3 := More(Seg([], Lone(',')), rest);
    var r2 := More(Seg(" ", Digits(d)), r3);
    var r1 := More(Seg(" ", Lone('=')), r2);
    TokensCons(Seg([], Lone(',')), rest);
    TokensCons(Seg(" ", Digits(d)), r3);
    TokensCons(Seg(" ", Lone('=')), r2);
    TokensCons(Seg(lead, Name(name)), r1);
  }

  lemma RuleGood(bd: seq<char>, sd: seq<char>)
    requires Decimal(bd) && Decimal(sd)
    ensures AllGood(RuleSegs(bd, sd)) && Ended(RuleSegs(bd, sd), '\n')
    ensures FirstChar(RuleSegs(bd, sd).g) == ' '
  {
    assert AllBlank(" ") && AllBlank([]);
    assert PlainName("rule");
    var r6 := More(Seg([], Digits(sd)), Done);
    var r5 := More(Seg([], Lone('S')), r6);
    var r4 := More(Seg([], Lone('/')), r5);
    var r3 := More(Seg([], Digits(bd)), r4);
    var r2 := More(Seg(" ", Lone('B')), r3);
    var r1 := More(Seg(" ", Lone('=')), r2);
    SegsCons(Seg([], Digits(sd)), Done, '\n');
    SegsCons(Seg([], Lone('S')), r6, '\n');
    SegsCons(Seg([], Lone('/')), r5, '\n');
    SegsCons(Seg([], Digits(bd)), r4, '\n');
    SegsCons(Seg(" ", Lone('B')), r3, '\n');
    SegsCons(Seg(" ", Lone('=')), r2, '\n');
    SegsCons(Seg(" ", Name("rule")), r1, '\n');
  }

  lemma TextCons(g: Seg, rest: Segs)
    ensures SegsText(More(g, rest)) == SegText(g) + SegsText(rest)
  {
  }

  /** The pieces of the rule text put together. */
  lemma RuleGlue(bd: seq<char>, sd: seq<char>, t0: seq<char>, t1: seq<char>, t2: seq<char>, t3: seq<char>, t4: seq<char>, t5: seq<char>, t6: seq<char>)
    requires t6 == [] + sd + []
    requires t5 == [] + ['S'] + t6 && t4 == [] + ['/'] + t5 && t3 == [] + bd + t4
    requires t2 == " " + ['B'] + t3 && t1 == " " + ['='] + t2 && t0 == " " + "rule" + t1
    ensures t0 == " rule = B" + bd + "/S" + sd
  {
  }

  lemma RuleSegsText(bd: seq<char>, sd: seq<char>)
    ensures SegsText(RuleSegs(bd, sd)) == " rule = B" + bd + "/S" + sd
  {
    var r6 := More(Seg([], Digits(sd)), Done);
    var r5 := More(Seg([], Lone('S')), r6);
    var r4 := More(Seg([], Lone('/')), r5);
    var r3 := More(Seg([], Digits(bd)), r4);
    var r2 := More(Seg(" ", Lone('B')), r3);
    var r1 := More(Seg(" ", Lone('=')), r2);
    var r0 := More(Seg(" ", Name("rule")), r1);
    TextCons(Seg([], Digits(sd)), Done);
    TextCons(Seg([], Lone('S')), r6);
    TextCons(Seg([], Lone('/')), r5);
    TextCons(Seg([], Digits(bd)), r4);
    TextCons(Seg(" ", Lone('B')), r3);
    TextCons(Seg(" ", Lone('=')), r2);
    TextCons(Seg(" ", Name("rule")), r1);
    RuleGlue(bd, sd, SegsText(r0), SegsText(r1), SegsText(r2), SegsText(r3), SegsText(r4), SegsText(r5), SegsText(r6));
  }

  lemma RuleTokens(bd: seq<char>, sd: seq<char>)
    ensures SegsTokens(RuleSegs(bd, sd)) ==
      [Token(Identifier, "rule"), Token(Equals, "="), Token(B, "B"), Token(Number, bd),
       Token(Slash, "/"), Token(S, "S"), Token(Number, sd)]
  {
    var r6 := More(Seg([], Digits(sd)), Done);
    var r5 := More(Seg([], Lone('S')), r6);
    var r4 := More(Seg([], Lone('/')), r5);
    var r3 := More(Seg([], Digits(bd)), r4);
    var r2 := More(Seg(" ", Lone('B')), r3);
    var r1 := More(Seg(" ", Lone('=')), r2);
    TokensCons(Seg([], Digits(sd)), Done);
    TokensCons(Seg([], Lone('S')), r6);
    TokensCons(Seg([], Lone('/')), r5);
    TokensCons(Seg([], Digits(bd)), r4);
    TokensCons(Seg(" ", Lone('B')), r3);
    TokensCons(Seg(" ", Lone('=')), r2);
    TokensCons(Seg(" ", Name("rule")), r1);
    var r0 := More(Seg(" ", Name("rule")), r1);
    RuleTokensGlue(bd, sd, SegsTokens(r0), SegsTokens(r1), SegsTokens(r2), SegsTokens(r3),
      SegsTokens(r4), SegsTokens(r5), SegsTokens(r6));
  }

  /** The tokens of the rule put together. */
  lemma RuleTokensGlue(bd: seq<char>, sd: seq<char>, u0: seq<Token>, u1: seq<Token>, u2: seq<Token>, u3: seq<Token>, u4: seq<Token>, u5: seq<Token>, u6: seq<Token>)
    requires u6 == [Token(Number, sd)] + [] && u5 == [Token(S, "S")] + u6 && u4 == [Token(Slash, "/")] + u5
    requires u3 == [Token(Number, bd)] + u4 && u2 == [Token(B, "B")] + u3 && u1 == [Token(Equals, "=")] + u2
    requires u0 == [Token(Identifier, "rule")] + u1
    ensures u0 == [Token(Identifier, "rule"), Token(Equals, "="), Token(B, "B"), Token(Number, bd),
       Token(Slash, "/"), Token(S, "S"), Token(Number, sd)]
  {
  }

  lemma NoteGood()
    ensures GoodCore(Note("# Auto generated map file"))
  {
    var t := "# Auto generated map file";
    forall k | 0 <= k < |t|
      ensures t[k] != '\n'
    {
    }
  }

  /** The pieces of the header text put together. */
  lemma HeaderGlue(wd: seq<char>, hd: seq<char>, bd: seq<char>, sd: seq<char>, rule: seq<char>, ys: seq<char>, xs: seq<char>)
    requires rule == " rule = B" + bd + "/S" + sd
    requires ys == " " + "y" + " = " + hd + "," + rule
    requires xs == [] + "x" + " = " + wd + "," + ys
    ensures [] + ("# Auto generated map file" + ['\n']) + xs + "\n" ==
      "# Auto generated map file\n" + "x = " + wd + ", y = " + hd + ", " + "rule = B" + bd + "/S" + sd + "\n"
  {
  }

  lemma HeaderGood(wd: seq<char>, hd: seq<char>, bd: seq<char>, sd: seq<char>)
    requires Decimal(wd) && Decimal(hd) && Decimal(bd) && Decimal(sd)
    ensures AllGood(HeaderSegs(wd, hd, bd, sd)) && Ended(HeaderSegs(wd, hd, bd, sd), '\n')
  {
    NoteGood();
    assert PlainName("x") && PlainName("y");
    RuleGood(bd, sd);
    var rule := RuleSegs(bd, sd);
    AssignmentGood(" ", "y", hd, rule, '\n');
    var ys := Assignment(" ", "y", hd, rule);
    AssignmentGood([], "x", wd, ys, '\n');
    SegsCons(Seg([], Note("# Auto generated map file")), Assignment([], "x", wd, ys), '\n');
  }

  /** The header as segments is the header `dump_to_file` writes, but for
      its final newline. */
  lemma HeaderAsText(wd: seq<char>, hd: seq<char>, bd: seq<char>, sd: seq<char>)
    ensures SegsText(HeaderSegs(wd, hd, bd, sd)) + "\n" ==
      "# Auto generated map file\n" + "x = " + wd + ", y = " + hd + ", " + "rule = B" + bd + "/S" + sd + "\n"
  {
    RuleSegsText(bd, sd);
    var rule := RuleSegs(bd, sd);
    AssignmentText(" ", "y", hd, rule);
    var ys := Assignment(" ", "y", hd, rule);
    AssignmentText([], "x", wd, ys);
    var xs := Assignment([], "x", wd, ys);
    HeaderGlue(wd, hd, bd, sd, SegsText(rule), SegsText(ys), SegsText(xs));
  }

  /** The header is read as the header tokens. */
  lemma HeaderTokensAre(wd: seq<char>, hd: seq<char>, bd: seq<char>, sd: seq<char>)
    ensures SegsTokens(HeaderSegs(wd, hd, bd, sd)) == HeaderTokens(wd, hd, bd, sd)
  {
    RuleTokens(bd, sd);
    var rule := RuleSegs(bd, sd);
    AssignmentTokens(" ", "y", hd, rule);
    var ys := Assignment(" ", "y", hd, rule);
    AssignmentTokens([], "x", wd, ys);
    var xs := Assignment([], "x", wd, ys);
    TokensCons(Seg([], Note("# Auto generated map file")), xs);
    HeaderTokensGlue(wd, hd, bd, sd, SegsTokens(rule), SegsTokens(ys), SegsTokens(xs),
      SegsTokens(HeaderSegs(wd, hd, bd, sd)));
  }

  /** The tokens of the header put together. */
  lemma HeaderTokensGlue(wd: seq<char>, hd: seq<char>, bd: seq<char>, sd: seq<char>, rule: seq<Token>, ys: seq<Token>, xs: seq<Token>, all: seq<Token>)
    requires rule == [Token(Identifier, "rule"), Token(Equals, "="), Token(B, "B"), Token(Number, bd),
       Token(Slash, "/"), Token(S, "S"), Token(Number, sd)]
    requires ys == [Token(Identifier, "y"), Token(Equals, "="), Token(Number, hd), Token(Comma, ",")] + rule
    requires xs == [Token(Identifier, "x"), Token(Equals, "="), Token(Number, wd), Token(Comma, ",")] + ys
    requires all == [Token(Comment, "# Auto generated map file")] + xs
    ensures all == HeaderTokens(wd, hd, bd, sd)
  {
  }

  /** The rule digits `dump_to_file` writes for a non-empty set of
      non-negative numbers form a decimal number. */
  lemma {:induction false} RuleDigits(s: set<int>)
    requires forall x :: x in s ==> x >= 0
    ensures AllDigits(RuleText(s)) && (s != {} ==> |RuleText(s)| > 0)
    decreases |s|
  {
    if s != {} {
      var m := SetMin(s);
      RuleDigits(s - {m});
      var a, b := IntToDecimal(m), RuleText(s - {m});
      assert RuleText(s) == a + b;
      forall k | 0 <= k < |a + b|
        ensures IsDigit((a + b)[k])
      {
        if k >= |a| {
          assert (a + b)[k] == b[k - |a|];
        }
      }
    }
  }

  /** Every piece of the body is a run, `$` or `!`. */
  lemma {:induction false} FromRowBody(cells: seq<seq<bool>>, r: nat)
    requires r <= |cells|
    ensures forall k :: 0 <= k < |FromRow(cells, r)| ==> BodyPiece(FromRow(cells, r)[k])
    decreases |cells| - r
  {
    if r < |cells| {
      FromRowBody(cells, r + 1);
      ClosedExpands(cells[r]);
      var c, rest := Closed(cells[r]), FromRow(cells, r + 1);
      assert FromRow(cells, r) == [Chr('$')] + c + rest;
      forall k | 0 <= k < |[Chr('$')] + c + rest|
        ensures BodyPiece(([Chr('$')] + c + rest)[k])
      {
        if 1 <= k < 1 + |c| {
          assert ([Chr('$')] + c + rest)[k] == c[k - 1];
        } else if k >= 1 + |c| {
          assert ([Chr('$')] + c + rest)[k] == rest[k - 1 - |c|];
        }
      }
    }
  }

  lemma BodyPiecesBody(cells: seq<seq<bool>>, height: nat, width: nat)
    requires WellShaped(cells, height, width) && height > 0 && width > 0
    ensures BodyPieces(cells, height, width) != [] && AllBody(BodyPieces(cells, height, width))
  {
    BodyPiecesByRows(cells, height, width);
    ClosedExpands(cells[0]);
    FromRowBody(cells, 1);
    var c, rest := Closed(cells[0]), FromRow(cells, 1);
    var ps := c + rest + [Chr('!')];
    forall k | 0 <= k < |ps|
      ensures BodyPiece(ps[k])
    {
      if k < |c| {
        assert ps[k] == c[k];
      } else if k < |c| + |rest| {
        assert ps[k] == rest[k - |c|];
      }
    }
    AllBodyOf(ps);
  }

  /** A newline at the very end reads as the end of the input. */
  lemma FinalNewline(input: seq<char>)
    requires |input| > 0 && input[|input| - 1] == '\n'
    ensures NextToken(input, Stream(|input| - 1, false)).0.kind == Eof
  {
    assert NextToken(input, Stream(|input| - 1, false)) == NextToken(input, Stream(|input|, false));
  }

  /** A row of the table where the lexer finds the end of the input is the
      last row. */
  lemma TableEnd(input: seq<char>, T: seq<Token>, S: seq<Stream>, m: nat, j: nat)
    requires Table(input, T, S) && m < |S| && S[m] == Stream(j, false)
    requires NextToken(input, Stream(j, false)).0.kind == Eof
    ensures m == |T|
  {
    assert NextToken(input, S[m]).0.kind == Eof;
  }

  /** Where the header, the body and the final newline stand in the text. */
  lemma EncodedParts(input: seq<char>, ht: seq<char>, body: seq<char>)
    requires input == ht + "\n" + body + "\n"
    ensures |ht| + 1 + |body| + 1 == |input|
    ensures input[..|ht|] == ht && input[|ht|] == '\n' && input[|input| - 1] == '\n'
    ensures input[|ht|..|ht| + |"\n" + body|] == "\n" + body
  {
    assert input == ht + ("\n" + body) + "\n";
  }

  /** The whole text read through the token table. */
  lemma EncodedReads(input: seq<char>, T: seq<Token>, S: seq<Stream>, hs: Segs, ps: seq<Piece>)
    requires Table(input, T, S) && S[0] == Stream(0, false)
    requires AllGood(hs) && Ended(hs, '\n') && ps != [] && AllBody(ps)
    requires input == SegsText(hs) + "\n" + Layout(ps).0 + "\n"
    ensures T == SegsTokens(hs) + PiecesTokens(ps)
  {
    EncodedPrefix(input, T, S, hs, ps);
    ReadsAll(input, T, S, SegsTokens(hs) + PiecesTokens(ps));
  }

  /** The text up to its final newline read through the token table. */
  lemma EncodedPrefix(input: seq<char>, T: seq<Token>, S: seq<Stream>, hs: Segs, ps: seq<Piece>)
    requires Table(input, T, S) && S[0] == Stream(0, false)
    requires AllGood(hs) && Ended(hs, '\n') && ps != [] && AllBody(ps)
    requires input == SegsText(hs) + "\n" + Layout(ps).0 + "\n"
    ensures |input| > 0 && input[|input| - 1] == '\n'
    ensures Reads(T, S, 0, 0, SegsTokens(hs) + PiecesTokens(ps), |input| - 1)
  {
    var ht, body := SegsText(hs), Layout(ps).0;
    EncodedParts(input, ht, body);
    HeaderPartReads(input, T, S, hs);
    var m, k := |SegsTokens(hs)|, |ht| + |"\n" + body|;
    BodyPartReads(input, T, S, m, |ht|, ps);
    ReadsFromStart(T, S, SegsTokens(hs), |ht|, PiecesTokens(ps), k);
  }

  /** `ReadsThen` from the first row of the table. */
  lemma ReadsFromStart(T: seq<Token>, S: seq<Stream>, ts: seq<Token>, j: nat, us: seq<Token>, k: nat)
    requires Reads(T, S, 0, 0, ts, j) && Reads(T, S, |ts|, j, us, k)
    ensures Reads(T, S, 0, 0, ts + us, k)
  {
    ReadsThen(T, S, 0, 0, ts, j, us, k);
  }

  /** The header, read from the start of the table up to its newline. */
  lemma HeaderPartReads(input: seq<char>, T: seq<Token>, S: seq<Stream>, hs: Segs)
    requires Table(input, T, S) && S[0] == Stream(0, false)
    requires AllGood(hs) && Ended(hs, '\n')
    requires |SegsText(hs)| < |input| && input[..|SegsText(hs)|] == SegsText(hs) && input[|SegsText(hs)|] == '\n'
    ensures Reads(T, S, 0, 0, SegsTokens(hs), |SegsText(hs)|)
  {
    assert input[0..0 + |SegsText(hs)|] == SegsText(hs);
    SegsReads(input, T, S, 0, 0, hs, '\n');
  }

  /** The body, read from row `m` of the table, after the header's
      newline at `i`. */
  lemma BodyPartReads(input: seq<char>, T: seq<Token>, S: seq<Stream>, m: nat, i: nat, ps: seq<Piece>)
    requires Table(input, T, S) && m < |S| && S[m] == Stream(i, false)
    requires ps != [] && AllBody(ps)
    requires i + |"\n" + Layout(ps).0| < |input| && input[i..i + |"\n" + Layout(ps).0|] == "\n" + Layout(ps).0
    ensures Reads(T, S, m, i, PiecesTokens(ps), i + |"\n" + Layout(ps).0|)
  {
    LayoutReads(input, T, S, m, i, "\n", ps);
  }

  /** Tokens read from the start of the table up to the final newline are
      all the table holds. */
  lemma ReadsAll(input: seq<char>, T: seq<Token>, S: seq<Stream>, ts: seq<Token>)
    requires Table(input, T, S) && |input| > 0 && input[|input| - 1] == '\n'
    requires Reads(T, S, 0, 0, ts, |input| - 1)
    ensures T == ts
  {
    FinalNewline(input);
    TableEnd(input, T, S, |ts|, |input| - 1);
    assert T == T[0..|T|];
  }

  /** What the lexer makes of the text `dump_to_file` writes: the header
      tokens, then the count and marker of every piece of the body; the
      newlines between them vanish. */
  lemma EncodedTokens(cells: seq<seq<bool>>, height: nat, width: nat, born: set<int>, survives: set<int>)
    requires WellShaped(cells, height, width) && height > 0 && width > 0
    requires born != {} && survives != {}
    requires (forall x :: x in born ==> x >= 0) && (forall x :: x in survives ==> x >= 0)
    ensures Tokenize(EncodeText(cells, height, width, born, survives), Stream(0, false)) ==
      HeaderTokens(IntToDecimal(width), IntToDecimal(height), RuleText(born), RuleText(survives)) +
      PiecesTokens(BodyPieces(cells, height, width))
  {
    var input := EncodeText(cells, height, width, born, survives);
    var wd, hd, bd, sd := IntToDecimal(width), IntToDecimal(height), RuleText(born), RuleText(survives);
    RuleDigits(born);
    RuleDigits(survives);
    var hs, ps := HeaderSegs(wd, hd, bd, sd), BodyPieces(cells, height, width);
    HeaderGood(wd, hd, bd, sd);
    HeaderAsText(wd, hd, bd, sd);
    HeaderTokensAre(wd, hd, bd, sd);
    BodyPiecesBody(cells, height, width);
    assert input == SegsText(hs) + "\n" + Layout(ps).0 + "\n";
    TableOf(input, Stream(0, false));
    EncodedReads(input, Tokenize(input, Stream(0, false)), Streams(input, Stream(0, false)), hs, ps);
  }
}
