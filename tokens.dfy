// The tokens of the pattern-file lexer (the `Token` enumeration of
// src/rtl_parser.cpp:13-40): a kind and the text it was read from.

module Tokens {

  /** The kinds of token, in the order of the enumeration. `StringError`
      and `Error` are the two negative values. */
  datatype TokenKind =
    | StringError | Error | Eof
    | X | Y | Comma | Equals | Dollar | B | O | S
    | Multiply | Plus | Minus | Identifier | OBracket | CBracket
    | Percent | Slash | ExclamationMark | Number | Comment | Str
    | Call | Rule

  /** The kinds whose value is negative: `next_symbol` reports them. */
  predicate IsErrorKind(k: TokenKind) {
    k == StringError || k == Error
  }

  /** `std::pair<Token, std::string>` as `lex()` returns it. */
  datatype Token = Token(kind: TokenKind, text: seq<char>)

  /** The single characters that are a token by themselves, apart from
      the letters `b`, `o` and `s`. */
  predicate IsPunctuation(c: char) {
    c == ',' || c == '=' || c == '*' || c == '+' || c == '-' || c == '$' ||
    c == '/' || c == '!' || c == '(' || c == ')' || c == '%'
  }

  /** The kind of a punctuation token. */
  function Punctuation(c: char): (k: TokenKind)
    requires IsPunctuation(c)
  {
    match c
    case ',' => Comma
    case '=' => Equals
    case '*' => Multiply
    case '+' => Plus
    case '-' => Minus
    case '$' => Dollar
    case '/' => Slash
    case '!' => ExclamationMark
    case '(' => OBracket
    case ')' => CBracket
    case '%' => Percent
  }

  /** The kinds `Punctuation` gives. */
  predicate IsPunctuationKind(k: TokenKind) {
    k == Comma || k == Equals || k == Multiply || k == Plus || k == Minus || k == Dollar ||
    k == Slash || k == ExclamationMark || k == OBracket || k == CBracket || k == Percent
  }
}
