/** Strings as the repository's Ruby code inspects them: ASCII case folding,
    substring tests, character classes of the address formats, blankness. */
module Text {

  /** ASCII lower-casing of one character (what `String#downcase` does to ASCII). */
  function LowerChar(c: char): char {
    if 'A' <= c <= 'Z' then (c as int + 32) as char else c
  }

  function ToLower(s: string): (r: string)
    ensures |r| == |s|
    ensures forall i :: 0 <= i < |s| ==> r[i] == LowerChar(s[i])
  {
    if |s| == 0 then "" else [LowerChar(s[0])] + ToLower(s[1..])
  }

  lemma ToLowerIdempotent(s: string)
    ensures ToLower(ToLower(s)) == ToLower(s)
  {
  }

  lemma ToLowerAppend(a: string, b: string)
    ensures ToLower(a + b) == ToLower(a) + ToLower(b)
  {
  }

  /** `p` occurs in `s` starting at index `i`. */
  predicate OccursAt(p: string, s: string, i: int) {
    0 <= i && i + |p| <= |s| && s[i..i + |p|] == p
  }

  /** `p` occurs in `s` at some index `>= from`. */
  predicate OccursFrom(p: string, s: string, from: int) {
    exists i | 0 <= i <= |s| - |p| :: from <= i && OccursAt(p, s, i)
  }

  /** `String#include?`, and the unanchored literal regexes. */
  predicate Contains(s: string, p: string) {
    OccursFrom(p, s, 0)
  }

  predicate StartsWith(s: string, p: string) {
    |p| <= |s| && s[..|p|] == p
  }

  predicate EndsWith(s: string, p: string) {
    |p| <= |s| && s[|s| - |p|..] == p
  }

  /** An occurrence of `q` inside `p` is an occurrence inside any `s` that contains `p`. */
  lemma OccursWithin(q: string, p: string, s: string, i: int, k: int)
    requires OccursAt(p, s, i) && OccursAt(q, p, k)
    ensures OccursAt(q, s, i + k)
  {
    forall j | 0 <= j < |q|
      ensures s[i + k + j] == q[j]
    {
      assert s[i + k + j] == s[i..i + |p|][k + j];
      assert p[k..k + |q|][j] == p[k + j];
    }
  }

  /** Containment is transitive: `p` inside `s` and `q` inside `p` put `q` inside `s`. */
  lemma ContainsTransitive(s: string, p: string, q: string)
    requires Contains(s, p) && Contains(p, q)
    ensures Contains(s, q)
  {
    var i :| 0 <= i <= |s| - |p| && OccursAt(p, s, i);
    var k :| 0 <= k <= |p| - |q| && OccursAt(q, p, k);
    OccursWithin(q, p, s, i, k);
  }

  predicate IsDigit(c: char) {
    '0' <= c <= '9'
  }

  predicate IsUpper(c: char) {
    'A' <= c <= 'Z'
  }

  predicate IsLower(c: char) {
    'a' <= c <= 'z'
  }

  /** `[a-fA-F0-9]` */
  predicate IsHexDigit(c: char) {
    IsDigit(c) || 'a' <= c <= 'f' || 'A' <= c <= 'F'
  }

  /** `[1-9A-HJ-NP-Za-km-z]`: the Bitcoin base58 alphabet (no 0, O, I, l). */
  predicate IsBase58Char(c: char) {
    ('1' <= c <= '9') || ('A' <= c <= 'H') || ('J' <= c <= 'N') || ('P' <= c <= 'Z')
    || ('a' <= c <= 'k') || ('m' <= c <= 'z')
  }

  /** `[a-z0-9]` */
  predicate IsLowerAlnum(c: char) {
    IsLower(c) || IsDigit(c)
  }

  /** Whitespace in the sense of `String#blank?`, restricted to ASCII. */
  predicate IsSpace(c: char) {
    c == ' ' || c == '\t' || c == '\n' || c == '\r' || c == '\U{000B}' || c == '\U{000C}'
  }

  /** `blank?` on a string: empty or whitespace only. */
  predicate IsBlank(s: string) {
    forall i :: 0 <= i < |s| ==> IsSpace(s[i])
  }

  function DigitChar(d: nat): char
    requires d < 10
  {
    ('0' as int + d) as char
  }

  /** Decimal rendering of a natural number, as string interpolation prints it. */
  function NatToString(n: nat): (r: string)
    ensures |r| >= 1
    ensures forall i :: 0 <= i < |r| ==> IsDigit(r[i])
    decreases n
  {
    if n < 10 then [DigitChar(n)] else NatToString(n / 10) + [DigitChar(n % 10)]
  }
}
