/**
 * String helpers shared by the map page and the chat screen: decimal rendering of
 * integers, JavaScript's `String.prototype.trim`, and `.replace(/c/g, rep)` with a
 * one-character pattern.
 */
module Text {

  // ---------------------------------------------------------------------------
  // Decimal rendering of a non-negative integer (template interpolation of an
  // integer, e.g. `existingMarker_${index}` or `${res.status}`).
  // ---------------------------------------------------------------------------

  predicate IsDigit(c: char) {
    '0' <= c <= '9'
  }

  function DigitChar(d: nat): (c: char)
    requires d < 10
    ensures IsDigit(c)
  {
    (('0' as int) + d) as char
  }

  function Decimal(n: nat): (r: string)
    ensures |r| > 0 && forall i :: 0 <= i < |r| ==> IsDigit(r[i])
    ensures r[0] == '0' ==> n == 0
    decreases n
  {
    if n < 10 then [DigitChar(n)] else Decimal(n / 10) + [DigitChar(n % 10)]
  }

  function DigitValue(c: char): nat
    requires IsDigit(c)
  {
    (c as int) - ('0' as int)
  }

  /** The number a string of digits denotes (reference definition for `Decimal`). */
  function DigitsValue(s: string): nat
    requires forall i :: 0 <= i < |s| ==> IsDigit(s[i])
  {
    if s == [] then 0 else DigitsValue(s[..|s| - 1]) * 10 + DigitValue(s[|s| - 1])
  }

  /** Reading the decimal rendering back gives the number. */
  lemma {:induction false} DecimalRoundTrip(n: nat)
    ensures DigitsValue(Decimal(n)) == n
    decreases n
  {
    if n >= 10 {
      var d := Decimal(n);
      assert d[..|d| - 1] == Decimal(n / 10);
      DecimalRoundTrip(n / 10);
    }
  }

  /** Distinct numbers have distinct renderings. */
  lemma DecimalInjective(m: nat, n: nat)
    ensures Decimal(m) == Decimal(n) ==> m == n
  {
    DecimalRoundTrip(m);
    DecimalRoundTrip(n);
  }

  // ---------------------------------------------------------------------------
  // JavaScript String.prototype.trim: strips WhiteSpace and LineTerminator code
  // points (ECMAScript, section 12.2 and 12.3 of ECMA-262) from both ends.
  // ---------------------------------------------------------------------------

  predicate IsLineTerminator(c: char) {
    c == '\n' || c == '\r' || c == '\U{2028}' || c == '\U{2029}'
  }

  predicate IsJsWhitespace(c: char) {
    c == '\t' || c == '\U{B}' || c == '\U{C}' || c == ' ' || c == '\U{A0}' || c == '\U{FEFF}'
    // the Unicode space separators (general category Zs) other than U+0020 and U+00A0
    || c == '\U{1680}' || ('\U{2000}' <= c <= '\U{200A}') || c == '\U{202F}' || c == '\U{205F}'
    || c == '\U{3000}'
    || IsLineTerminator(c)
  }

  /** Every character of `s` from index `lo` up to (not including) `hi` is whitespace. */
  predicate WhitespaceBetween(s: string, lo: nat, hi: nat)
    requires lo <= hi <= |s|
  {
    forall k :: lo <= k < hi ==> IsJsWhitespace(s[k])
  }

  predicate AllWhitespace(s: string) {
    WhitespaceBetween(s, 0, |s|)
  }

  /** Drops the leading whitespace: the result is the longest suffix not starting with whitespace. */
  function TrimStart(s: string): (r: string)
    ensures |r| <= |s| && r == s[|s| - |r|..]
    ensures WhitespaceBetween(s, 0, |s| - |r|)
    ensures r != [] ==> !IsJsWhitespace(r[0])
  {
    if s != [] && IsJsWhitespace(s[0]) then
      var r := TrimStart(s[1..]);
      assert forall k :: 1 <= k < |s| - |r| ==> s[k] == s[1..][k - 1];
      r
    else s
  }

  /** Drops the trailing whitespace: the result is the longest prefix not ending with whitespace. */
  function TrimEnd(s: string): (r: string)
    ensures |r| <= |s| && r == s[..|r|]
    ensures WhitespaceBetween(s, |r|, |s|)
    ensures r != [] ==> !IsJsWhitespace(r[|r| - 1])
  {
    if s != [] && IsJsWhitespace(s[|s| - 1]) then
      var r := TrimEnd(s[..|s| - 1]);
      assert forall k :: |r| <= k < |s| - 1 ==> s[k] == s[..|s| - 1][k];
      r
    else s
  }

  function Trim(s: string): string {
    TrimEnd(TrimStart(s))
  }

  /**
   * `s.trim()` is a contiguous piece of `s` with only whitespace around it and no
   * whitespace at either of its ends.
   */
  lemma TrimSpec(s: string)
    ensures var r := Trim(s);
      exists i :: 0 <= i <= |s| - |r| && r == s[i..i + |r|]
        && WhitespaceBetween(s, 0, i) && WhitespaceBetween(s, i + |r|, |s|)
    ensures Trim(s) != [] ==> !IsJsWhitespace(Trim(s)[0]) && !IsJsWhitespace(Trim(s)[|Trim(s)| - 1])
  {
    var t := TrimStart(s);
    var r := TrimEnd(t);
    var i := |s| - |t|;
    assert t[..|r|] == s[i..i + |r|];
    WhitespaceBetweenShift(s, i, |r|, |t|);
    assert 0 <= i <= |s| - |r| && r == s[i..i + |r|] && WhitespaceBetween(s, 0, i);
  }

  /** Whitespace in a suffix `s[i..]` is whitespace in `s`, `i` places further on. */
  lemma WhitespaceBetweenShift(s: string, i: nat, lo: nat, hi: nat)
    requires i <= |s| && lo <= hi <= |s| - i
    requires WhitespaceBetween(s[i..], lo, hi)
    ensures WhitespaceBetween(s, i + lo, i + hi)
  {
    forall k | i + lo <= k < i + hi
      ensures IsJsWhitespace(s[k])
    {
      assert s[k] == s[i..][k - i];
    }
  }

  /** `s.trim()` is empty exactly when `s` is nothing but whitespace. */
  lemma TrimEmptyIff(s: string)
    ensures Trim(s) == [] <==> AllWhitespace(s)
  {
    var t := TrimStart(s);
    var i := |s| - |t|;
    if TrimEnd(t) != [] {
      assert s[i] == TrimEnd(t)[0];
    }
  }

  // ---------------------------------------------------------------------------
  // `.replace(/c/g, rep)`: every occurrence of the single character `c` is
  // replaced by `rep` (none of the replacement strings used here contains a
  // `$` pattern that String.prototype.replace would expand).
  // ---------------------------------------------------------------------------

  function ReplaceAll(s: string, c: char, rep: string): string {
    if s == [] then [] else (if s[0] == c then rep else [s[0]]) + ReplaceAll(s[1..], c, rep)
  }

  lemma {:induction false} ReplaceAllAppend(a: string, b: string, c: char, rep: string)
    ensures ReplaceAll(a + b, c, rep) == ReplaceAll(a, c, rep) + ReplaceAll(b, c, rep)
  {
    if a == [] {
      assert a + b == b;
    } else {
      assert (a + b)[0] == a[0] && (a + b)[1..] == a[1..] + b;
      ReplaceAllAppend(a[1..], b, c, rep);
    }
  }

  /** Number of characters of `s` that are in `cs`. */
  function CountIn(s: string, cs: set<char>): nat {
    if s == [] then 0 else (if s[0] in cs then 1 else 0) + CountIn(s[1..], cs)
  }

  /** Reference definition of an escaper: a backslash inserted before every character in `special`. */
  function BackslashBefore(s: string, special: set<char>): string {
    if s == [] then [] else (if s[0] in special then ['\\', s[0]] else [s[0]]) + BackslashBefore(s[1..], special)
  }

  lemma {:induction false} BackslashBeforeLength(s: string, special: set<char>)
    ensures |BackslashBefore(s, special)| == |s| + CountIn(s, special)
  {
    if s != [] {
      BackslashBeforeLength(s[1..], special);
    }
  }

  /** The characters of `s` other than backslashes, in order. */
  function WithoutBackslashes(s: string): string {
    if s == [] then [] else (if s[0] == '\\' then [] else [s[0]]) + WithoutBackslashes(s[1..])
  }

  lemma {:induction false} WithoutBackslashesAppend(a: string, b: string)
    ensures WithoutBackslashes(a + b) == WithoutBackslashes(a) + WithoutBackslashes(b)
  {
    if a == [] {
      assert a + b == b;
    } else {
      assert (a + b)[0] == a[0] && (a + b)[1..] == a[1..] + b;
      WithoutBackslashesAppend(a[1..], b);
    }
  }

  /**
   * Escaping only adds backslashes: every other character survives unchanged and in
   * order, and exactly one backslash is added per special character.
   */
  lemma {:induction false} BackslashBeforeKeepsText(s: string, special: set<char>)
    ensures WithoutBackslashes(BackslashBefore(s, special)) == WithoutBackslashes(s)
    ensures CountIn(BackslashBefore(s, special), {'\\'}) == CountIn(s, {'\\'}) + CountIn(s, special)
  {
    if s != [] {
      var head := if s[0] in special then ['\\', s[0]] else [s[0]];
      assert BackslashBefore(s, special) == head + BackslashBefore(s[1..], special);
      WithoutBackslashesAppend(head, BackslashBefore(s[1..], special));
      CountInAppend(head, BackslashBefore(s[1..], special), {'\\'});
      BackslashBeforeKeepsText(s[1..], special);
    }
  }

  lemma {:induction false} CountInAppend(a: string, b: string, cs: set<char>)
    ensures CountIn(a + b, cs) == CountIn(a, cs) + CountIn(b, cs)
  {
    if a == [] {
      assert a + b == b;
    } else {
      assert (a + b)[0] == a[0] && (a + b)[1..] == a[1..] + b;
      CountInAppend(a[1..], b, cs);
    }
  }

  lemma {:induction false} BackslashBeforeAppend(a: string, b: string, special: set<char>)
    ensures BackslashBefore(a + b, special) == BackslashBefore(a, special) + BackslashBefore(b, special)
  {
    if a == [] {
      assert a + b == b;
    } else {
      assert (a + b)[0] == a[0] && (a + b)[1..] == a[1..] + b;
      BackslashBeforeAppend(a[1..], b, special);
    }
  }

  lemma {:induction false} BackslashBeforeNoSpecials(s: string, special: set<char>)
    requires forall i :: 0 <= i < |s| ==> s[i] !in special
    ensures BackslashBefore(s, special) == s
  {
    if s != [] {
      BackslashBeforeNoSpecials(s[1..], special);
      assert [s[0]] + s[1..] == s;
    }
  }
}
