/**
 * The JavaScript string operations the app relies on: `toLowerCase`,
 * `includes`, `trim` and `Number.prototype.toString` for non-negative
 * integers. Strings are sequences of characters.
 */
module Text {

  // ---------------------------------------------------------------------
  // toLowerCase, for the characters whose lower case is an ASCII letter:
  // A-Z and U+212A KELVIN SIGN, which lower-cases to "k".

  predicate IsUpper(c: char)
  {
    'A' <= c <= 'Z'
  }

  const KelvinSign: char := '\U{212A}'

  function LowerChar(c: char): (r: char)
    ensures !IsUpper(r)
    ensures IsUpper(c) ==> r as int == c as int + 32
    ensures c == KelvinSign ==> r == 'k'
    ensures !IsUpper(c) && c != KelvinSign ==> r == c
  {
    if IsUpper(c) then (c as int + 32) as char
    else if c == KelvinSign then 'k'
    else c
  }

  function Lower(s: string): (r: string)
    ensures |r| == |s|
    ensures forall i :: 0 <= i < |s| ==> r[i] == LowerChar(s[i])
    decreases |s|
  {
    if s == [] then [] else [LowerChar(s[0])] + Lower(s[1..])
  }

  /**
   * The characters that lower-case to a given lower-case letter: itself, its
   * capital, and for "k" also the Kelvin sign.
   */
  lemma LowerCharIs(c: char, x: char)
    requires 'a' <= x <= 'z'
    ensures LowerChar(c) == x <==> c == x || c as int == x as int - 32 || (x == 'k' && c == KelvinSign)
  {
  }

  /** Lower-casing neither creates nor removes decimal digits. */
  lemma LowerCharDigit(c: char)
    ensures IsDigit(LowerChar(c)) <==> IsDigit(c)
  {
  }

  lemma LowerIdempotent(s: string)
    ensures Lower(Lower(s)) == Lower(s)
  {
  }

  // ---------------------------------------------------------------------
  // includes

  predicate IsPrefix(p: string, s: string)
  {
    |p| <= |s| && s[..|p|] == p
  }

  /** `needle` occurs somewhere in `s` (String.prototype.includes). */
  predicate Contains(s: string, needle: string)
    decreases |s|
  {
    IsPrefix(needle, s) || (s != [] && Contains(s[1..], needle))
  }

  /** `needle` occurs in `s` starting at position `i`. */
  ghost predicate OccursAt(s: string, needle: string, i: int)
  {
    0 <= i && i + |needle| <= |s| && s[i..i + |needle|] == needle
  }

  /** `Contains` finds exactly the positions where the needle occurs. */
  lemma {:induction false} ContainsIff(s: string, needle: string)
    ensures Contains(s, needle) <==> exists i :: OccursAt(s, needle, i)
    decreases |s|
  {
    if IsPrefix(needle, s) {
      assert OccursAt(s, needle, 0);
    } else if s != [] {
      ContainsIff(s[1..], needle);
      if exists i :: OccursAt(s[1..], needle, i) {
        var i :| OccursAt(s[1..], needle, i);
        assert s[1..][i..i + |needle|] == s[i + 1..i + 1 + |needle|];
        assert OccursAt(s, needle, i + 1);
      }
      if exists i :: OccursAt(s, needle, i) {
        var i :| OccursAt(s, needle, i);
        assert i != 0;
        assert s[1..][i - 1..i - 1 + |needle|] == s[i..i + |needle|];
        assert OccursAt(s[1..], needle, i - 1);
      }
    }
  }

  /** A string in which the needle's first character never occurs does not contain it. */
  lemma NotContainsWithoutFirstChar(s: string, needle: string)
    requires needle != []
    requires forall i :: 0 <= i < |s| ==> s[i] != needle[0]
    ensures !Contains(s, needle)
  {
    ContainsIff(s, needle);
    forall i | 0 <= i && i + |needle| <= |s| ensures !OccursAt(s, needle, i) {
      assert s[i..i + |needle|][0] == s[i];
    }
  }

  /** A string in which the needle's first two characters never occur side by side does not contain it. */
  lemma NotContainsWithoutFirstPair(s: string, needle: string)
    requires |needle| >= 2
    requires forall i :: 0 <= i < |s| - 1 ==> !(s[i] == needle[0] && s[i + 1] == needle[1])
    ensures !Contains(s, needle)
  {
    ContainsIff(s, needle);
    forall i | 0 <= i && i + |needle| <= |s| ensures !OccursAt(s, needle, i) {
      assert s[i..i + |needle|][0] == s[i] && s[i..i + |needle|][1] == s[i + 1];
    }
  }

  /** The empty string occurs in every string. */
  lemma ContainsEmpty(s: string)
    ensures Contains(s, "")
  {
    assert IsPrefix("", s);
  }

  // ---------------------------------------------------------------------
  // trim: the ECMAScript WhiteSpace and LineTerminator code points

  predicate IsWhiteSpace(c: char)
  {
    || c == '\t' || c == '\n' || c == '\U{000B}' || c == '\U{000C}' || c == '\r'
    || c == ' ' || c == '\U{00A0}' || c == '\U{1680}'
    || ('\U{2000}' <= c <= '\U{200A}')
    || c == '\U{2028}' || c == '\U{2029}' || c == '\U{202F}' || c == '\U{205F}'
    || c == '\U{3000}' || c == '\U{FEFF}'
  }

  /** Every character of `s` satisfies `p`. */
  ghost predicate AllSatisfy(s: string, p: char -> bool)
  {
    forall i :: 0 <= i < |s| ==> p(s[i])
  }

  // Stripping is stated for any class of characters `p`; `trim` below is
  // stripping of white space.

  /** `s` without its leading characters of class `p`. */
  function DropLeading(s: string, p: char -> bool): (r: string)
    ensures |r| <= |s| && r == s[|s| - |r|..]
    ensures AllSatisfy(s[..|s| - |r|], p)
    ensures r == [] || !p(r[0])
    decreases |s|
  {
    if s != [] && p(s[0]) then
      var r := DropLeading(s[1..], p);
      assert s[..|s| - |r|] == [s[0]] + s[1..][..|s| - 1 - |r|];
      r
    else
      s
  }

  /** `s` without its trailing characters of class `p`. */
  function DropTrailing(s: string, p: char -> bool): (r: string)
    ensures |r| <= |s| && r == s[..|r|]
    ensures AllSatisfy(s[|r|..], p)
    ensures r == [] || !p(r[|r| - 1])
    decreases |s|
  {
    if s != [] && p(s[|s| - 1]) then
      var init := s[..|s| - 1];
      var r := DropTrailing(init, p);
      assert s[|r|..] == init[|r|..] + [s[|s| - 1]];
      r
    else
      s
  }

  function Strip(s: string, p: char -> bool): string
  {
    DropTrailing(DropLeading(s, p), p)
  }

  /** `r` is the slice of `s` at `i`, and only characters of class `p` lie around it. */
  ghost predicate InnerSliceAt(s: string, r: string, i: int, p: char -> bool)
  {
    0 <= i <= i + |r| <= |s| && r == s[i..i + |r|] && AllSatisfy(s[..i], p) && AllSatisfy(s[i + |r|..], p)
  }

  lemma StripIsInnerSliceAt(s: string, p: char -> bool)
    ensures InnerSliceAt(s, Strip(s, p), |s| - |DropLeading(s, p)|, p)
  {
    var t := DropLeading(s, p);
    var r := DropTrailing(t, p);
    var i := |s| - |t|;
    SuffixSlices(s, i, |r|);
  }

  lemma StripIsInnerSlice(s: string, p: char -> bool)
    ensures exists i :: InnerSliceAt(s, Strip(s, p), i, p)
  {
    StripIsInnerSliceAt(s, p);
  }

  lemma SuffixSlices(s: string, i: nat, n: nat)
    requires i + n <= |s|
    ensures s[i..][..n] == s[i..i + n] && s[i..][n..] == s[i + n..]
  {
  }

  lemma StripEnds(s: string, p: char -> bool)
    ensures var r := Strip(s, p); r == [] || (!p(r[0]) && !p(r[|r| - 1]))
  {
    var t := DropLeading(s, p);
    var r := DropTrailing(t, p);
    if r != [] {
      assert r[0] == t[0];
    }
  }

  lemma StripEmptyIff(s: string, p: char -> bool)
    ensures Strip(s, p) == [] <==> AllSatisfy(s, p)
  {
    var t := DropLeading(s, p);
    if Strip(s, p) == [] {
      assert t[0..] == t;
      assert t == [];
      assert s[..|s|] == s;
    }
    if AllSatisfy(s, p) {
      assert t == [];
    }
  }

  lemma StripIdempotent(s: string, p: char -> bool)
    ensures Strip(Strip(s, p), p) == Strip(s, p)
  {
    var t := DropLeading(s, p);
    var r := DropTrailing(t, p);
    if r != [] {
      assert r[0] == t[0];
      assert DropLeading(r, p) == r;
      assert DropTrailing(r, p) == r;
    }
  }

  ghost predicate AllWhiteSpace(s: string)
  {
    AllSatisfy(s, IsWhiteSpace)
  }

  /** String.prototype.trim: white space removed from both ends. */
  function Trim(s: string): string
  {
    Strip(s, IsWhiteSpace)
  }

  /**
   * Trim removes only white space and only from the ends: the result is a
   * slice `s[i..i + |r|]` with white space around it.
   */
  lemma TrimIsInnerSlice(s: string)
    ensures var r := Trim(s);
      exists i :: 0 <= i <= i + |r| <= |s| && r == s[i..i + |r|]
        && AllWhiteSpace(s[..i]) && AllWhiteSpace(s[i + |r|..])
  {
    StripIsInnerSliceAt(s, IsWhiteSpace);
    var i := |s| - |DropLeading(s, IsWhiteSpace)|;
    assert InnerSliceAt(s, Trim(s), i, IsWhiteSpace);
  }

  /** Trim leaves no white space at either end. */
  lemma TrimEndsAreNotWhiteSpace(s: string)
    ensures Trim(s) == [] || (!IsWhiteSpace(Trim(s)[0]) && !IsWhiteSpace(Trim(s)[|Trim(s)| - 1]))
  {
    StripEnds(s, IsWhiteSpace);
  }

  /** A string trims to nothing exactly when it is all white space. */
  lemma TrimEmptyIff(s: string)
    ensures Trim(s) == [] <==> AllWhiteSpace(s)
  {
    StripEmptyIff(s, IsWhiteSpace);
  }

  lemma TrimIdempotent(s: string)
    ensures Trim(Trim(s)) == Trim(s)
  {
    StripIdempotent(s, IsWhiteSpace);
  }

  // ---------------------------------------------------------------------
  // Number.prototype.toString for non-negative integers

  predicate IsDigit(c: char)
  {
    '0' <= c <= '9'
  }

  function DigitChar(d: nat): (c: char)
    requires d < 10
    ensures IsDigit(c) && c as int - '0' as int == d
  {
    ('0' as int + d) as char
  }

  /** The decimal notation of `n`, without leading zeros. */
  function NatToString(n: nat): (r: string)
    ensures |r| >= 1
    ensures forall i :: 0 <= i < |r| ==> IsDigit(r[i])
    ensures r[0] == '0' ==> n == 0
    decreases n
  {
    if n < 10 then [DigitChar(n)] else NatToString(n / 10) + [DigitChar(n % 10)]
  }

  function DigitValue(c: char): nat
    requires IsDigit(c)
  {
    c as int - '0' as int
  }

  /** The number a string of decimal digits denotes. */
  function DecimalValue(s: string): nat
    requires forall i :: 0 <= i < |s| ==> IsDigit(s[i])
    decreases |s|
  {
    if s == [] then 0 else DecimalValue(s[..|s| - 1]) * 10 + DigitValue(s[|s| - 1])
  }

  /** Reading back the decimal notation gives the number. */
  lemma {:induction false} NatToStringRoundTrip(n: nat)
    ensures DecimalValue(NatToString(n)) == n
    decreases n
  {
    if n >= 10 {
      NatToStringRoundTrip(n / 10);
      var r := NatToString(n);
      assert r[..|r| - 1] == NatToString(n / 10);
    }
  }

  /** Different numbers have different decimal notations. */
  lemma NatToStringInjective(m: nat, n: nat)
    requires NatToString(m) == NatToString(n)
    ensures m == n
  {
    NatToStringRoundTrip(m);
    NatToStringRoundTrip(n);
  }
}
