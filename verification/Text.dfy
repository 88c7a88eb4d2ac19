/** Text helpers shared by the parsers: the whitespace, case, digits and cutting of Rust's `str`. */
module Text {

  /** Unicode White_Space, the separator set of split_whitespace and trim. */
  predicate IsSpace(c: char) {
    var n := c as int;
    9 <= n <= 13 || n == 0x20 || n == 0x85 || n == 0xA0 || n == 0x1680 || 0x2000 <= n <= 0x200A ||
    n == 0x2028 || n == 0x2029 || n == 0x202F || n == 0x205F || n == 0x3000
  }

  function LowerChar(c: char): char {
    if 'A' <= c <= 'Z' then ((c as int) + 32) as char else c
  }

  function Lower(s: string): string {
    if s == "" then "" else [LowerChar(s[0])] + Lower(s[1..])
  }

  /** The text before the first `c`, or all of it. */
  function UpTo(s: string, c: char): (p: string)
    ensures p <= s && c !in p
    ensures p == s || s[|p|] == c
  {
    if s == "" || s[0] == c then "" else [s[0]] + UpTo(s[1..], c)
  }

  lemma {:induction false} UpToJoined(p: string, rest: string, c: char)
    requires c !in p && (rest == "" || rest[0] == c)
    ensures UpTo(p + rest, c) == p
  {
    if p == "" {
      assert p + rest == rest;
    } else {
      UpToJoined(p[1..], rest, c);
      assert (p + rest)[1..] == p[1..] + rest;
    }
  }

  // ----- Digits -----

  predicate IsDigit(c: char) {
    '0' <= c <= '9'
  }

  predicate AllDigits(s: string) {
    forall i :: 0 <= i < |s| ==> IsDigit(s[i])
  }

  function Digit(c: char): (d: nat)
    requires IsDigit(c)
    ensures d < 10
  {
    (c as int) - ('0' as int)
  }

  function DigitChar(d: nat): (c: char)
    requires d < 10
    ensures IsDigit(c) && Digit(c) == d
  {
    (('0' as int) + d) as char
  }

  function Value(s: string): nat
    requires AllDigits(s)
  {
    if s == "" then 0 else assert IsDigit(s[|s| - 1]); 10 * Value(s[..|s| - 1]) + Digit(s[|s| - 1])
  }
}
