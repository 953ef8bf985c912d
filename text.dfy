// Character classes and decimal conversions shared by the lexer, the parser
// and the encoder: the C++ code uses range tests on `char`, `std::isdigit`,
// `std::stoi` (digit text to int) and `std::to_string` / `operator<<` (int to
// digit text).

module Text {

  /** `std::isdigit` in the "C" locale. */
  predicate IsDigit(c: char) {
    '0' <= c <= '9'
  }

  /** The ASCII letter tests `c >= 'a' && c <= 'z' || c >= 'A' && c <= 'Z'`. */
  predicate IsLetter(c: char) {
    ('a' <= c <= 'z') || ('A' <= c <= 'Z')
  }

  /** Characters that continue an identifier in the lexer: letters and `_`. */
  predicate IsWordChar(c: char) {
    IsLetter(c) || c == '_'
  }

  predicate AllDigits(s: seq<char>) {
    forall i :: 0 <= i < |s| ==> IsDigit(s[i])
  }

  /** The value of one digit, `c - '0'`. */
  function DigitValue(c: char): (d: nat)
    requires IsDigit(c)
    ensures d < 10
  {
    c as int - '0' as int
  }

  /** The digit character for 0..9. */
  function DigitChar(d: nat): (c: char)
    requires d < 10
    ensures IsDigit(c) && DigitValue(c) == d
  {
    ('0' as int + d) as char
  }

  /** `std::stoi` applied to a run of digits (the lexer only ever hands it
      such runs); the value is unbounded here. */
  function DigitsValue(s: seq<char>): nat
    requires AllDigits(s)
  {
    if s == [] then 0 else DigitsValue(s[..|s| - 1]) * 10 + DigitValue(s[|s| - 1])
  }

  /** `std::to_string(n)` for a non-negative `n`: the shortest decimal text,
      whose `stoi` value is `n` again. */
  function NatToDecimal(n: nat): (s: seq<char>)
    ensures |s| > 0 && AllDigits(s)
    ensures DigitsValue(s) == n
    ensures |s| > 1 ==> s[0] != '0'
  {
    if n < 10 then [DigitChar(n)]
    else
      var prefix := NatToDecimal(n / 10);
      var s := prefix + [DigitChar(n % 10)];
      assert s[..|s| - 1] == prefix;
      s
  }

  /** `operator<<` of an `int` on a stream: a leading minus for negative
      values, then the decimal digits of the magnitude. */
  function IntToDecimal(i: int): (s: seq<char>)
    ensures |s| > 0
    ensures i >= 0 <==> AllDigits(s)
    ensures i >= 0 ==> DigitsValue(s) == i
    ensures i < 0 ==> s[0] == '-' && AllDigits(s[1..]) && DigitsValue(s[1..]) == -i
  {
    if i >= 0 then NatToDecimal(i)
    else
      var s := ['-'] + NatToDecimal(-i);
      assert !IsDigit(s[0]);
      assert s[1..] == NatToDecimal(-i);
      s
  }

  lemma {:induction false} DigitsValueAppend(s: seq<char>, t: seq<char>)
    requires AllDigits(s) && AllDigits(t)
    ensures AllDigits(s + t)
    ensures DigitsValue(s + t) == DigitsValue(s) * Pow10(|t|) + DigitsValue(t)
    decreases |t|
  {
    if t == [] {
      assert s + t == s;
    } else {
      var t' := t[..|t| - 1];
      assert (s + t)[..|s + t| - 1] == s + t';
      assert (s + t)[|s + t| - 1] == t[|t| - 1];
      DigitsValueAppend(s, t');
      var a, b, d := DigitsValue(s), DigitsValue(t'), DigitValue(t[|t| - 1]);
      assert DigitsValue(s + t) == DigitsValue(s + t') * 10 + d;
      assert DigitsValue(t) == b * 10 + d;
      assert Pow10(|t|) == 10 * Pow10(|t'|);
      ShiftDigit(a, b, d, Pow10(|t'|));
    }
  }

  /** Appending a digit `d` to a number whose value is `a * p + b`. */
  lemma ShiftDigit(a: int, b: int, d: int, p: int)
    ensures (a * p + b) * 10 + d == a * (10 * p) + (b * 10 + d)
  {
  }

  /** A slice of `s` one character longer. */
  lemma SliceSnoc(s: seq<char>, i: nat, j: nat)
    requires i <= j < |s|
    ensures s[i..j + 1] == s[i..j] + [s[j]]
  {
  }

  function Pow10(n: nat): (p: nat)
    ensures p >= 1
  {
    if n == 0 then 1 else 10 * Pow10(n - 1)
  }
}
