/**
 Python `str` operations used by the downloader, on strings of code points
 (`seq<char>`): substring test, prefix and suffix tests, `lower()`, `strip()`,
 repetition `c * n` and `str(n)` for integers.
 */
module Strings {

  /** `sub` occurs in `s` starting at index `k`. */
  predicate OccursAt(s: string, sub: string, k: int) {
    0 <= k && k + |sub| <= |s| && s[k..k + |sub|] == sub
  }

  /** Python's `sub in s`. */
  predicate Contains(s: string, sub: string) {
    exists k | 0 <= k <= |s| :: OccursAt(s, sub, k)
  }

  /** Python's `s.startswith(p)`. */
  predicate StartsWith(s: string, p: string) {
    |p| <= |s| && s[..|p|] == p
  }

  /** Python's `s.endswith(p)`. */
  predicate EndsWith(s: string, p: string) {
    |p| <= |s| && s[|s| - |p|..] == p
  }

  /** `lower()` of one code point; only the ASCII letters are mapped. */
  function LowerChar(c: char): char {
    if 'A' <= c <= 'Z' then (c as int + 32) as char else c
  }

  /** Python's `s.lower()`, restricted to ASCII letters. */
  function Lower(s: string): (r: string)
    ensures |r| == |s|
    ensures forall k :: 0 <= k < |s| ==> r[k] == LowerChar(s[k])
    ensures forall k :: 0 <= k < |r| ==> !('A' <= r[k] <= 'Z')
    ensures forall k :: 0 <= k < |s| ==> (r[k] == s[k] <==> !('A' <= s[k] <= 'Z'))
  {
    seq(|s|, k requires 0 <= k < |s| => LowerChar(s[k]))
  }

  /** A string without upper-case ASCII letters is its own `lower()`. */
  lemma LowerOfLowercase(s: string)
    requires forall k :: 0 <= k < |s| ==> !('A' <= s[k] <= 'Z')
    ensures Lower(s) == s
  {
  }

  /** The code points for which Python's `str.isspace()` holds. */
  predicate IsWhitespace(c: char) {
    || c == ' '
    || ('\t' <= c <= '\r')
    || ('\U{1C}' <= c <= '\U{1F}')
    || c == '\U{85}' || c == '\U{A0}' || c == '\U{1680}'
    || ('\U{2000}' <= c <= '\U{200A}')
    || c == '\U{2028}' || c == '\U{2029}' || c == '\U{202F}'
    || c == '\U{205F}' || c == '\U{3000}'
  }

  predicate AllWhitespace(s: string) {
    forall k :: 0 <= k < |s| ==> IsWhitespace(s[k])
  }

  /** Index of the first non-whitespace code point (`|s|` when there is none). */
  function LeftEdge(s: string): (i: nat)
    ensures i <= |s|
    ensures forall k :: 0 <= k < i ==> IsWhitespace(s[k])
    ensures i < |s| ==> !IsWhitespace(s[i])
  {
    if |s| == 0 || !IsWhitespace(s[0]) then 0 else 1 + LeftEdge(s[1..])
  }

  /** One past the index of the last non-whitespace code point (0 when there is none). */
  function RightEdge(s: string): (j: nat)
    ensures j <= |s|
    ensures forall k :: j <= k < |s| ==> IsWhitespace(s[k])
    ensures j > 0 ==> !IsWhitespace(s[j - 1])
  {
    if |s| == 0 || !IsWhitespace(s[|s| - 1]) then |s| else RightEdge(s[..|s| - 1])
  }

  /** `s[i..j]` is what remains of `s` once its leading and trailing whitespace is cut. */
  predicate StrippedAt(s: string, i: int, j: int) {
    && 0 <= i <= j <= |s|
    && (forall k :: 0 <= k < i ==> IsWhitespace(s[k]))
    && (forall k :: j <= k < |s| ==> IsWhitespace(s[k]))
    && (i < j ==> !IsWhitespace(s[i]) && !IsWhitespace(s[j - 1]))
  }

  /** `r` is `s` with leading and trailing whitespace removed. */
  ghost predicate IsStripOf(r: string, s: string) {
    exists i, j :: StrippedAt(s, i, j) && r == s[i..j]
  }

  /** Python's `s.strip()`. */
  function Strip(s: string): (r: string)
    ensures IsStripOf(r, s)
    ensures r == [] <==> AllWhitespace(s)
  {
    var i := LeftEdge(s);
    var j := RightEdge(s);
    if j <= i then
      assert StrippedAt(s, 0, 0) && s[0..0] == [];
      []
    else
      assert StrippedAt(s, i, j);
      s[i..j]
  }

  /** Cutting exactly the edge whitespace is the only way to strip: `s[i..j]` is the strip of `s`. */
  lemma StripUnique(s: string, i: int, j: int)
    requires StrippedAt(s, i, j)
    ensures Strip(s) == s[i..j]
  {
    var r := Strip(s);
    if i == j {
      assert AllWhitespace(s);
    } else {
      assert !IsWhitespace(s[i]);
      assert r != [];
      var i', j' :| StrippedAt(s, i', j') && r == s[i'..j'];
      assert !IsWhitespace(s[i']) && !IsWhitespace(s[j' - 1]) && !IsWhitespace(s[j - 1]);
    }
  }

  /** Stripping twice is stripping once. */
  lemma StripIdempotent(s: string)
    ensures Strip(Strip(s)) == Strip(s)
  {
    var r := Strip(s);
    assert IsStripOf(r, s);
    assert StrippedAt(r, 0, |r|);
    StripUnique(r, 0, |r|);
  }

  /** A string with no whitespace at either end is its own strip. */
  lemma StripOfTrimmed(s: string)
    requires s != [] ==> !IsWhitespace(s[0]) && !IsWhitespace(s[|s| - 1])
    ensures Strip(s) == s
  {
    assert StrippedAt(s, 0, |s|);
    StripUnique(s, 0, |s|);
  }

  /** Python's `c * n` for a one-character string: empty when `n <= 0`. */
  function Repeat(c: char, n: int): (r: string)
    ensures |r| == if n <= 0 then 0 else n
    ensures forall k :: 0 <= k < |r| ==> r[k] == c
  {
    seq(if n <= 0 then 0 else n, _ => c)
  }

  function DigitChar(d: nat): (c: char)
    requires d < 10
    ensures IsDigit(c) && c as int - '0' as int == d
  {
    "0123456789"[d]
  }

  predicate IsDigit(c: char) {
    '0' <= c <= '9'
  }

  /** The number a string of decimal digits denotes, read most significant digit first. */
  function DigitsValue(s: string): nat
    requires forall k :: 0 <= k < |s| ==> IsDigit(s[k])
  {
    if |s| == 0 then 0
    else
      assert IsDigit(s[|s| - 1]);
      10 * DigitsValue(s[..|s| - 1]) + (s[|s| - 1] as int - '0' as int)
  }

  /** Decimal digits of a natural number, without leading zeros. */
  function NatToString(n: nat): (r: string)
    ensures |r| > 0 && forall k :: 0 <= k < |r| ==> IsDigit(r[k])
    ensures |r| > 1 ==> r[0] != '0'
    decreases n
  {
    if n < 10 then [DigitChar(n)] else NatToString(n / 10) + [DigitChar(n % 10)]
  }

  /** Reading the digits back gives the number. */
  lemma {:induction false} NatToStringValue(n: nat)
    ensures DigitsValue(NatToString(n)) == n
    decreases n
  {
    var r := NatToString(n);
    if n >= 10 {
      NatToStringValue(n / 10);
      assert r[..|r| - 1] == NatToString(n / 10);
    }
  }

  /**
   Python's `str(n)` for an `int`: a minus sign exactly for a negative
   number, then the decimal digits of its magnitude without leading zeros.
   */
  function IntToString(n: int): (r: string)
    ensures |r| > 0 && (r[0] == '-' <==> n < 0)
    ensures forall k :: 0 < k < |r| ==> IsDigit(r[k])
    ensures n >= 0 ==> IsDigit(r[0])
    ensures |r| > 1 && r[0] != '-' ==> r[0] != '0'
    ensures |r| > 2 && r[0] == '-' ==> r[1] != '0'
  {
    if n < 0 then "-" + NatToString(-n) else NatToString(n)
  }

  /** `str(n)` read back: the magnitude's digits give `|n|`, so distinct numbers print differently. */
  lemma IntToStringValue(n: int)
    ensures n >= 0 ==> DigitsValue(IntToString(n)) == n
    ensures n < 0 ==> IntToString(n)[1..] == NatToString(-n) && DigitsValue(IntToString(n)[1..]) == -n
  {
    if n >= 0 {
      NatToStringValue(n);
    } else {
      NatToStringValue(-n);
      assert IntToString(n)[1..] == NatToString(-n);
    }
  }

  /** Lower-casing commutes with slicing. */
  lemma LowerSlice(s: string, i: int, j: int)
    requires 0 <= i <= j <= |s|
    ensures Lower(s[i..j]) == Lower(s)[i..j]
  {
  }

  /** An occurrence inside a slice is an occurrence in the whole, shifted by the slice start. */
  lemma OccursInSlice(s: string, w: string, i: int, j: int, k: int)
    requires 0 <= i <= j <= |s|
    ensures OccursAt(s[i..j], w, k) <==> 0 <= k && k + |w| <= j - i && OccursAt(s, w, i + k)
  {
    if 0 <= k && k + |w| <= j - i {
      var a, b := s[i..j][k..k + |w|], s[i + k..i + k + |w|];
      assert |a| == |b|;
      forall m | 0 <= m < |a| ensures a[m] == b[m] {
        assert a[m] == s[i..j][k + m] == s[i + k + m];
      }
      assert a == b;
    }
  }

  /** An occurrence of a whitespace-free pattern in `Lower(t)` lies between `t`'s edges. */
  lemma OccurrenceWithinEdges(t: string, w: string, i: int, j: int, k: int)
    requires StrippedAt(t, i, j)
    requires |w| > 0 && forall m :: 0 <= m < |w| ==> !IsWhitespace(w[m])
    requires OccursAt(Lower(t), w, k)
    ensures i <= k && k + |w| <= j
  {
    var lt := Lower(t);
    assert lt[k..k + |w|][0] == lt[k];
    assert lt[k..k + |w|][|w| - 1] == lt[k + |w| - 1];
    assert !IsWhitespace(t[k]) && !IsWhitespace(t[k + |w| - 1]);
  }

  /**
   A pattern without whitespace occurs in the lower-cased strip of `t`
   exactly when it occurs in the lower-cased `t`: stripping only removes
   whitespace, which no occurrence of the pattern can touch.
   */
  lemma ContainsIgnoresStrip(t: string, w: string)
    requires |w| > 0 && forall m :: 0 <= m < |w| ==> !IsWhitespace(w[m])
    ensures Contains(Lower(Strip(t)), w) <==> Contains(Lower(t), w)
  {
    assert IsStripOf(Strip(t), t);
    var i, j :| StrippedAt(t, i, j) && Strip(t) == t[i..j];
    LowerSlice(t, i, j);
    if Contains(Lower(t)[i..j], w) {
      ContainedInSliceContained(Lower(t), w, i, j);
    }
    if Contains(Lower(t), w) {
      ContainedWithinEdges(t, w, i, j);
    }
  }

  lemma ContainedInSliceContained(s: string, w: string, i: int, j: int)
    requires 0 <= i <= j <= |s| && Contains(s[i..j], w)
    ensures Contains(s, w)
  {
    var k :| 0 <= k <= j - i && OccursAt(s[i..j], w, k);
    OccursInSlice(s, w, i, j, k);
  }

  lemma ContainedWithinEdges(t: string, w: string, i: int, j: int)
    requires StrippedAt(t, i, j)
    requires |w| > 0 && forall m :: 0 <= m < |w| ==> !IsWhitespace(w[m])
    requires Contains(Lower(t), w)
    ensures Contains(Lower(t)[i..j], w)
  {
    var lt := Lower(t);
    var k :| 0 <= k <= |lt| && OccursAt(lt, w, k);
    OccurrenceWithinEdges(t, w, i, j, k);
    OccurrenceKeptBySlice(lt, w, i, j, k);
  }

  lemma OccurrenceKeptBySlice(s: string, w: string, i: int, j: int, p: int)
    requires 0 <= i <= p && p + |w| <= j <= |s| && OccursAt(s, w, p)
    ensures OccursAt(s[i..j], w, p - i)
  {
    OccursInSlice(s, w, i, j, p - i);
  }

  /** A string lacking one of the pattern's characters does not contain the pattern. */
  lemma MissingCharExcludes(s: string, w: string, m: int)
    requires 0 <= m < |w| && forall k :: 0 <= k < |s| ==> s[k] != w[m]
    ensures !Contains(s, w)
  {
    forall k ensures !OccursAt(s, w, k) {
      if 0 <= k && k + |w| <= |s| {
        assert s[k..k + |w|][m] == s[k + m];
      }
    }
  }
}
