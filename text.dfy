/**
 * The string operations the detector relies on: Kotlin's `trim()`, decimal
 * rendering of an index (string templates such as "Class_$i") and the
 * decimal value of a run of digits (`toInt()` on a `\d+` group).
 */
module Text {

  /** Whitespace as both `trim()` and the regular-expression class `\s` see it (ASCII only). */
  predicate IsWhitespace(c: char) {
    c == ' ' || c == '\t' || c == '\n' || c == '\r' || c as int == 11 || c as int == 12
  }

  predicate IsDigit(c: char) { '0' <= c <= '9' }

  function DigitValue(c: char): nat
    requires IsDigit(c)
  {
    (c as int) - ('0' as int)
  }

  function DigitChar(d: nat): (c: char)
    requires d < 10
    ensures IsDigit(c) && DigitValue(c) == d
  {
    ('0' as int + d) as char
  }

  /** Drops leading whitespace: what is left is a suffix starting with a non-blank. */
  function TrimStart(s: string): (r: string)
    ensures |r| <= |s|
    ensures r == [] || !IsWhitespace(r[0])
  {
    if s != [] && IsWhitespace(s[0]) then TrimStart(s[1..]) else s
  }

  /** Drops trailing whitespace: what is left is a prefix ending in a non-blank. */
  function TrimEnd(s: string): (r: string)
    ensures |r| <= |s|
    ensures r == [] || !IsWhitespace(r[|r| - 1])
  {
    if s != [] && IsWhitespace(s[|s| - 1]) then TrimEnd(s[..|s| - 1]) else s
  }

  /** Kotlin `trim()`: neither end of the result is whitespace. */
  function Trim(s: string): (r: string)
    ensures |r| <= |s|
    ensures r == [] || (!IsWhitespace(r[0]) && !IsWhitespace(r[|r| - 1]))
  {
    TrimEndDropsBlanks(TrimStart(s));
    TrimEnd(TrimStart(s))
  }

  /** What `TrimStart` drops is whitespace, and what it keeps is a suffix. */
  lemma {:induction false} TrimStartDropsBlanks(s: string)
    ensures TrimStart(s) == s[|s| - |TrimStart(s)|..]
    ensures forall k :: 0 <= k < |s| - |TrimStart(s)| ==> IsWhitespace(s[k])
  {
    if s != [] && IsWhitespace(s[0]) {
      TrimStartDropsBlanks(s[1..]);
    }
  }

  /** What `TrimEnd` drops is whitespace, and what it keeps is a prefix. */
  lemma {:induction false} TrimEndDropsBlanks(s: string)
    ensures TrimEnd(s) == s[..|TrimEnd(s)|]
    ensures forall k :: |TrimEnd(s)| <= k < |s| ==> IsWhitespace(s[k])
  {
    if s != [] && IsWhitespace(s[|s| - 1]) {
      TrimEndDropsBlanks(s[..|s| - 1]);
    }
  }

  /** Trimming a string that has no blank at either end leaves it unchanged. */
  lemma TrimUnchanged(s: string)
    requires s != [] && !IsWhitespace(s[0]) && !IsWhitespace(s[|s| - 1])
    ensures Trim(s) == s
  {
  }

  /** The value of a run of decimal digits, most significant first. */
  function DigitsValue(s: string): nat
    requires forall k :: 0 <= k < |s| ==> IsDigit(s[k])
  {
    if s == [] then 0 else DigitsValue(s[..|s| - 1]) * 10 + DigitValue(s[|s| - 1])
  }

  /**
   * Decimal rendering of a non-negative index, as Kotlin's string template
   * writes it: digits only, no leading zero, and reading it back gives the index.
   */
  function NatToString(n: nat): (r: string)
    ensures r != []
    ensures forall k :: 0 <= k < |r| ==> IsDigit(r[k])
    ensures |r| == 1 || r[0] != '0'
    ensures DigitsValue(r) == n
  {
    if n < 10 then [DigitChar(n)]
    else
      var prefix := NatToString(n / 10);
      var r := prefix + [DigitChar(n % 10)];
      assert r[..|r| - 1] == prefix;
      assert r[0] == prefix[0];
      assert |prefix| == 1 ==> DigitValue(prefix[0]) == n / 10 >= 1;
      r
  }

  /** A digit run that does not start with '0' has a positive value. */
  lemma {:induction false} LeadingDigitPositive(s: string)
    requires s != [] && (forall k :: 0 <= k < |s| ==> IsDigit(s[k])) && s[0] != '0'
    ensures DigitsValue(s) >= 1
  {
    if |s| > 1 {
      var prefix := s[..|s| - 1];
      assert prefix[0] == s[0];
      LeadingDigitPositive(prefix);
    }
  }

  /** The rendering is the only digit string without a leading zero that reads as `n`. */
  lemma {:induction false} NatToStringUnique(s: string, n: nat)
    requires s != [] && (forall k :: 0 <= k < |s| ==> IsDigit(s[k]))
    requires |s| == 1 || s[0] != '0'
    requires DigitsValue(s) == n
    ensures s == NatToString(n)
  {
    var last := s[|s| - 1];
    if |s| == 1 {
      assert DigitChar(DigitValue(last)) == last;
      assert s == [last];
    } else {
      var prefix := s[..|s| - 1];
      assert prefix[0] == s[0];
      LeadingDigitPositive(prefix);
      assert n / 10 == DigitsValue(prefix) && n % 10 == DigitValue(last);
      NatToStringUnique(prefix, n / 10);
      assert DigitChar(DigitValue(last)) == last;
      assert s == prefix + [last];
    }
  }
}
