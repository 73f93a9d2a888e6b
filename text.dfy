/**
 * The string operations the content script relies on: `String.prototype.includes`,
 * `startsWith`, the decimal rendering of a whole number by template literals,
 * and `padStart(2, '0')`.  Strings are sequences of characters.
 */
module Text {
  import opened Wrappers

  /** `t` occurs in `s` starting at offset `i`. */
  predicate OccursAt(s: string, t: string, i: nat) {
    i + |t| <= |s| && s[i..i + |t|] == t
  }

  /** `s.includes(t)` */
  predicate Contains(s: string, t: string) {
    exists i: nat | i <= |s| :: OccursAt(s, t, i)
  }

  /** `s.startsWith(t)` */
  predicate StartsWith(s: string, t: string) {
    |t| <= |s| && s[..|t|] == t
  }

  /** If `t` occurs in `u` at `j`, then every occurrence of `u` carries `t` with it. */
  lemma {:induction false} ContainsInner(s: string, u: string, t: string, j: nat)
    requires Contains(s, u)
    requires OccursAt(u, t, j)
    ensures Contains(s, t)
  {
    var i: nat :| i <= |s| && OccursAt(s, u, i);
    var w := s[i..i + |u|];
    var a := s[i + j..i + j + |t|];
    var b := w[j..j + |t|];
    assert |a| == |b|;
    assert forall k | 0 <= k < |a| :: a[k] == b[k];
    assert a == b;
    assert OccursAt(s, t, i + j);
  }

  predicate IsDigit(c: char) {
    '0' <= c <= '9'
  }

  predicate AllDigits(s: string) {
    forall i | 0 <= i < |s| :: IsDigit(s[i])
  }

  function DigitChar(d: nat): (c: char)
    requires d < 10
    ensures IsDigit(c)
  {
    "0123456789"[d]
  }

  function DigitValue(c: char): (d: nat)
    requires IsDigit(c)
    ensures d < 10
  {
    (c as int - '0' as int) as nat
  }

  /** The decimal rendering of a whole number, as `${n}` produces it for a non-negative integer. */
  function NatToString(n: nat): (r: string)
    ensures |r| >= 1 && AllDigits(r)
    ensures |r| > 1 ==> r[0] != '0'
    decreases n
  {
    if n < 10 then [DigitChar(n)] else NatToString(n / 10) + [DigitChar(n % 10)]
  }

  /** `t.padStart(2, '0')` */
  function PadStart2(t: string): (r: string)
    ensures |r| == if |t| < 2 then 2 else |t|
    ensures r[|r| - |t|..] == t
    ensures forall i | 0 <= i < |r| - |t| :: r[i] == '0'
  {
    if |t| == 0 then "00" else if |t| == 1 then "0" + t else t
  }

  /** The value of a string of decimal digits, read most significant digit first. */
  function DigitsValue(s: string): nat
    requires AllDigits(s)
    decreases |s|
  {
    if s == [] then 0 else DigitsValue(s[..|s| - 1]) * 10 + DigitValue(s[|s| - 1])
  }

  /** Reads a non-empty string of decimal digits back into a number; `None` for anything else. */
  function ParseNat(s: string): Option<nat> {
    if s != [] && AllDigits(s) then Some(DigitsValue(s)) else None
  }

  lemma {:induction false} NatToStringValue(n: nat)
    ensures DigitsValue(NatToString(n)) == n
    decreases n
  {
    var r := NatToString(n);
    if n >= 10 {
      NatToStringValue(n / 10);
      assert r[..|r| - 1] == NatToString(n / 10);
    }
  }

  /** Decimal rendering and parsing are inverse: `ParseNat(NatToString(n)) == Some(n)`. */
  lemma NatToStringRoundTrip(n: nat)
    ensures ParseNat(NatToString(n)) == Some(n)
  {
    NatToStringValue(n);
  }

  /** Leading zeros added by `PadStart2` do not change the value read back. */
  lemma PadStart2Value(t: string)
    requires AllDigits(t)
    ensures AllDigits(PadStart2(t)) && DigitsValue(PadStart2(t)) == DigitsValue(t)
  {
  }

  /** Position of the first `c` in `s`, or `|s|` when there is none (`indexOf` with -1 mapped to `|s|`). */
  function IndexOf(s: string, c: char): (k: nat)
    ensures k <= |s|
    ensures k < |s| ==> s[k] == c
    ensures forall j | 0 <= j < k :: s[j] != c
  {
    if s == [] then 0 else if s[0] == c then 0 else 1 + IndexOf(s[1..], c)
  }
}
