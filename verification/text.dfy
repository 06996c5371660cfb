/** The few string operations of the Kotlin standard library the client
    relies on: case-insensitive character comparison, substring search
    (case-sensitive and case-insensitive), upper-casing and decimal
    rendering of a count. */
module Text {

  /** `Char.uppercaseChar()` on ASCII letters and on the two non-ASCII
      letters whose upper case is an ASCII letter (long s, dotless i). */
  function UpperChar(c: char): char {
    if 'a' <= c <= 'z' then (c as int - 32) as char
    else if c == '\U{017F}' then 'S'
    else if c == '\U{0131}' then 'I'
    else c
  }

  /** `Char.lowercaseChar()` on ASCII letters and on the Kelvin sign,
      whose lower case is an ASCII letter. */
  function LowerChar(c: char): char {
    if 'A' <= c <= 'Z' then (c as int + 32) as char
    else if c == '\U{212A}' then 'k'
    else c
  }

  /** `Char.equals(other, ignoreCase = true)`: equal, or equal once both are
      upper-cased, or equal once the upper-cased forms are lower-cased. */
  predicate CharEqualsIgnoreCase(a: char, b: char) {
    || a == b
    || UpperChar(a) == UpperChar(b)
    || LowerChar(UpperChar(a)) == LowerChar(UpperChar(b))
  }

  /** `s` holds `p` starting at index `i`. */
  predicate OccursAt(s: string, p: string, i: int) {
    0 <= i && i + |p| <= |s| && s[i..i + |p|] == p
  }

  /** `s.contains(p)`. */
  predicate Contains(s: string, p: string) {
    exists i :: 0 <= i <= |s| - |p| && OccursAt(s, p, i)
  }

  /** `s` holds `p` starting at index `i`, comparing characters ignoring case. */
  predicate OccursAtIgnoreCase(s: string, p: string, i: int) {
    && 0 <= i && i + |p| <= |s|
    && forall k :: 0 <= k < |p| ==> CharEqualsIgnoreCase(s[i + k], p[k])
  }

  /** `s.contains(p, ignoreCase = true)`. */
  predicate ContainsIgnoreCase(s: string, p: string) {
    exists i :: 0 <= i <= |s| - |p| && OccursAtIgnoreCase(s, p, i)
  }

  /** `s.equals(t, ignoreCase = true)`. */
  predicate EqualsIgnoreCase(s: string, t: string) {
    |s| == |t| && OccursAtIgnoreCase(s, t, 0)
  }

  /** `s.uppercase()` on text whose characters all have a one-character
      upper case (every UUID string does). */
  function Uppercase(s: string): string {
    seq(|s|, i requires 0 <= i < |s| => UpperChar(s[i]))
  }

  /** `s.lowercase()`, character by character. */
  function Lowercase(s: string): string {
    seq(|s|, i requires 0 <= i < |s| => LowerChar(s[i]))
  }

  /** Finding an occurrence ignoring case only gets easier with a shorter
      pattern: an occurrence of `p` holds an occurrence of each prefix of `p`. */
  lemma PrefixOccursIgnoreCase(s: string, p: string, n: nat)
    requires n <= |p|
    requires ContainsIgnoreCase(s, p)
    ensures ContainsIgnoreCase(s, p[..n])
  {
    var i :| 0 <= i <= |s| - |p| && OccursAtIgnoreCase(s, p, i);
    assert OccursAtIgnoreCase(s, p[..n], i);
  }

  function DigitChar(d: nat): (c: char)
    requires d < 10
    ensures '0' <= c <= '9'
  {
    ('0' as int + d) as char
  }

  function DigitValue(c: char): nat
    requires '0' <= c <= '9'
  {
    c as int - '0' as int
  }

  /** The value of a string of decimal digits. */
  function DecimalValue(s: string): nat
    requires forall i :: 0 <= i < |s| ==> '0' <= s[i] <= '9'
  {
    if |s| == 0 then 0 else 10 * DecimalValue(s[..|s| - 1]) + DigitValue(s[|s| - 1])
  }

  /** Kotlin's string template rendering of a non-negative `Int`. */
  function Decimal(n: nat): (s: string)
    ensures |s| >= 1
    ensures forall i :: 0 <= i < |s| ==> '0' <= s[i] <= '9'
    ensures |s| > 1 ==> s[0] != '0'
  {
    if n < 10 then [DigitChar(n)] else Decimal(n / 10) + [DigitChar(n % 10)]
  }

  /** Rendering a count and reading the digits back gives the count. */
  lemma {:induction false} DecimalRoundTrip(n: nat)
    ensures DecimalValue(Decimal(n)) == n
  {
    var s := Decimal(n);
    if n >= 10 {
      DecimalRoundTrip(n / 10);
      assert s[..|s| - 1] == Decimal(n / 10);
      assert DigitValue(s[|s| - 1]) == n % 10;
    } else {
      assert DigitValue(s[0]) == n;
    }
  }
}
