/** The few Kotlin standard-library string operations the app relies on. */
module Strings {
  import opened Wrappers

  /** Kotlin's `Char.isWhitespace()` on the JVM: Java whitespace (tab, line
      feed, vertical tab, form feed, carriage return, the four information
      separators) plus every space, line or paragraph separator character. */
  predicate IsWhitespace(c: char)
    ensures IsWhitespace(c) ==> c != ',' && !('0' <= c <= '9') && !('A' <= c <= 'Z') && !('a' <= c <= 'z')
  {
    c == '\t' || c == '\n' || c == '\U{B}' || c == '\U{C}' || c == '\r'
    || ('\U{1C}' <= c <= '\U{1F}')
    || c == ' ' || c == '\U{A0}' || c == '\U{1680}'
    || ('\U{2000}' <= c <= '\U{200A}')
    || c == '\U{2028}' || c == '\U{2029}' || c == '\U{202F}' || c == '\U{205F}' || c == '\U{3000}'
  }

  /** `String.isBlank()`: empty or whitespace only. */
  predicate IsBlank(s: string)
    ensures |s| == 0 ==> IsBlank(s)
    ensures IsBlank(s) ==> forall i :: 0 <= i < |s| ==> s[i] != ','
  {
    forall i :: 0 <= i < |s| ==> IsWhitespace(s[i])
  }

  /** `String.contains(other)`. */
  predicate Contains(s: string, t: string)
    decreases |s|
    ensures t == [] ==> Contains(s, t)
    ensures Contains(s, t) ==> |t| <= |s|
  {
    (|t| <= |s| && s[..|t|] == t) || (|s| > 0 && Contains(s[1..], t))
  }

  function Digit(d: nat): (c: char)
    requires d < 10
    ensures '0' <= c <= '9'
  {
    "0123456789"[d]
  }

  /** Decimal digits of a natural number, most significant first. */
  function NatToString(n: nat): (r: string)
    ensures |r| >= 1
    ensures forall i :: 0 <= i < |r| ==> '0' <= r[i] <= '9'
  {
    if n < 10 then [Digit(n)] else NatToString(n / 10) + [Digit(n % 10)]
  }

  /** `Int.toString()` / `Long.toString()`. */
  function IntToString(n: int): (r: string)
    ensures |r| >= 1
    ensures r[0] == '-' <==> n < 0
    ensures n >= 0 ==> r == NatToString(n)
  {
    if n < 0 then "-" + NatToString(-n) else NatToString(n)
  }

  /** `String.padStart(length, padChar)`. */
  function PadStart(s: string, length: nat, pad: char): (r: string)
    ensures |r| == if |s| >= length then |s| else length
    ensures r[|r| - |s|..] == s
    ensures forall i :: 0 <= i < |r| - |s| ==> r[i] == pad
  {
    if |s| >= length then s else seq(length - |s|, _ => pad) + s
  }

  /** The text of an exception message in a Kotlin string template:
      `"${e.message}"` renders a null message as "null". */
  function MessageText(m: Option<string>): (text: string)
    ensures m.Some? ==> text == m.value
    ensures m.None? ==> text == "null"
  {
    m.GetOr("null")
  }

  lemma {:induction false} NatToStringOneDigit(n: nat)
    requires n < 10
    ensures NatToString(n) == [Digit(n)]
  {
  }

  lemma {:induction false} NatToStringTwoDigits(n: nat)
    requires 10 <= n < 100
    ensures NatToString(n) == [Digit(n / 10), Digit(n % 10)]
  {
    NatToStringOneDigit(n / 10);
  }
}
