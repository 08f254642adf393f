/**
 * String helpers shared by the Kotlin and Swift models: ASCII case mapping,
 * whitespace trimming, decimal rendering and parsing, substring tests and
 * splitting. Strings are `seq<char>`; case mapping covers ASCII letters only.
 */
module Text {
  import opened Wrappers

  // ---------------------------------------------------------------- case

  predicate IsUpperAscii(c: char) { 'A' <= c <= 'Z' }
  predicate IsLowerAscii(c: char) { 'a' <= c <= 'z' }

  function LowerChar(c: char): (r: char)
    ensures !IsUpperAscii(r)
    ensures !IsUpperAscii(c) ==> r == c
  {
    if IsUpperAscii(c) then (c as int + 32) as char else c
  }

  function UpperChar(c: char): (r: char)
    ensures !IsLowerAscii(r)
    ensures !IsLowerAscii(c) ==> r == c
  {
    if IsLowerAscii(c) then (c as int - 32) as char else c
  }

  /** Kotlin `lowercase()` / Swift `lowercased()` on ASCII letters. */
  function Lower(s: string): (r: string)
    ensures |r| == |s|
    ensures forall i :: 0 <= i < |s| ==> r[i] == LowerChar(s[i])
  {
    if s == [] then [] else [LowerChar(s[0])] + Lower(s[1..])
  }

  /** Kotlin `uppercase()` / Swift `uppercased()` on ASCII letters. */
  function Upper(s: string): (r: string)
    ensures |r| == |s|
    ensures forall i :: 0 <= i < |s| ==> r[i] == UpperChar(s[i])
  {
    if s == [] then [] else [UpperChar(s[0])] + Upper(s[1..])
  }

  lemma LowerIdempotent(s: string)
    ensures Lower(Lower(s)) == Lower(s)
  {
  }

  lemma UpperIdempotent(s: string)
    ensures Upper(Upper(s)) == Upper(s)
  {
  }

  /** A string without upper-case letters is its own lower-case form. */
  lemma LowerOfLowercase(s: string)
    requires forall i :: 0 <= i < |s| ==> !IsUpperAscii(s[i])
    ensures Lower(s) == s
  {
  }

  lemma LowerOfUpper(s: string)
    ensures Lower(Upper(s)) == Lower(s)
  {
  }

  lemma LowerAppend(a: string, b: string)
    ensures Lower(a + b) == Lower(a) + Lower(b)
  {
  }

  /** Kotlin `a.equals(b, ignoreCase = true)` over ASCII: same length and the same letters up to case. */
  predicate EqualsIgnoreCase(a: string, b: string)
  {
    |a| == |b| && forall i :: 0 <= i < |a| ==> LowerChar(a[i]) == LowerChar(b[i])
  }

  /** Comparing ignoring case is comparing the lower-case forms. */
  lemma EqualsIgnoreCaseIffLower(a: string, b: string)
    ensures EqualsIgnoreCase(a, b) <==> Lower(a) == Lower(b)
  {
    if Lower(a) == Lower(b) {
      assert forall i :: 0 <= i < |a| ==> LowerChar(a[i]) == Lower(a)[i];
    }
  }

  lemma EqualsIgnoreCaseUpper(a: string)
    ensures EqualsIgnoreCase(a, Upper(a)) && EqualsIgnoreCase(a, Lower(a))
  {
  }

  // ---------------------------------------------------------- whitespace

  /** Members of Foundation's `.whitespaces`: horizontal blanks. */
  predicate IsBlank(c: char)
  {
    c == ' ' || c == '\t' || c == '\U{00A0}' || c == '\U{1680}' || ('\U{2000}' <= c <= '\U{200A}')
    || c == '\U{202F}' || c == '\U{205F}' || c == '\U{3000}'
  }

  /** Members of Foundation's `.newlines`. */
  predicate IsNewline(c: char)
  {
    ('\U{000A}' <= c <= '\U{000D}') || c == '\U{0085}' || c == '\U{2028}' || c == '\U{2029}'
  }

  /** Foundation's `.whitespacesAndNewlines`. */
  predicate IsWhite(c: char)
  {
    IsBlank(c) || IsNewline(c)
  }

  /**
   * Kotlin's `Char.isWhitespace` on the JVM: the space separators (the
   * characters of Zs, which `IsBlank` lists), the line and paragraph
   * separators, tab through carriage return, and the four information
   * separators U+001C to U+001F. Unlike Foundation's set it lacks U+0085.
   */
  predicate IsKotlinWhitespace(c: char)
  {
    (IsBlank(c) && c != '\t') || c == '\U{2028}' || c == '\U{2029}'
    || ('\U{0009}' <= c <= '\U{000D}') || ('\U{001C}' <= c <= '\U{001F}')
  }

  /** The characters the trimming functions strip. */
  datatype WhiteSet = Blanks | BlanksAndNewlines | KotlinWhitespace

  predicate InSet(c: char, w: WhiteSet)
  {
    match w
    case Blanks => IsBlank(c)
    case BlanksAndNewlines => IsWhite(c)
    case KotlinWhitespace => IsKotlinWhitespace(c)
  }

  /** The characters on which Foundation's and Kotlin's whitespace disagree. */
  predicate WhitespaceDiffers(c: char)
  {
    c == '\U{0085}' || ('\U{001C}' <= c <= '\U{001F}')
  }

  /** Away from U+0085 and U+001C-U+001F the two platforms' whitespace is the same set. */
  lemma KotlinWhitespaceAgrees(c: char)
    ensures !WhitespaceDiffers(c) ==> (IsKotlinWhitespace(c) <==> IsWhite(c))
    ensures WhitespaceDiffers(c) ==> (IsKotlinWhitespace(c) <==> !IsWhite(c))
  {
  }

  /** Removes the leading characters that belong to the set. */
  function DropLeading(s: string, w: WhiteSet): (r: string)
    ensures |r| <= |s|
    ensures r != [] ==> !InSet(r[0], w)
  {
    if s != [] && InSet(s[0], w) then DropLeading(s[1..], w) else s
  }

  /** What `DropLeading` keeps is a suffix, and everything before it was dropped for being white. */
  lemma {:induction false} DropLeadingSuffix(s: string, w: WhiteSet)
    ensures var r := DropLeading(s, w);
      && r == s[|s| - |r|..]
      && forall i :: 0 <= i < |s| - |r| ==> InSet(s[i], w)
  {
    if s != [] && InSet(s[0], w) {
      DropLeadingSuffix(s[1..], w);
    }
  }

  /** Removes the trailing characters that belong to the set. */
  function DropTrailing(s: string, w: WhiteSet): (r: string)
    ensures |r| <= |s|
    ensures r != [] ==> !InSet(r[|r| - 1], w)
  {
    if s != [] && InSet(s[|s| - 1], w) then DropTrailing(s[..|s| - 1], w) else s
  }

  /** What `DropTrailing` keeps is a prefix, and everything after it was dropped for being white. */
  lemma {:induction false} DropTrailingPrefix(s: string, w: WhiteSet)
    ensures var r := DropTrailing(s, w);
      && r == s[..|r|]
      && forall i :: |r| <= i < |s| ==> InSet(s[i], w)
  {
    if s != [] && InSet(s[|s| - 1], w) {
      DropTrailingPrefix(s[..|s| - 1], w);
    }
  }

  /** Strips the set's characters from both ends. */
  function TrimSet(s: string, w: WhiteSet): (r: string)
    ensures |r| <= |s|
    ensures r != [] ==> !InSet(r[0], w) && !InSet(r[|r| - 1], w)
  {
    var l := DropLeading(s, w);
    DropTrailingPrefix(l, w);
    DropTrailing(l, w)
  }

  /** Swift `trimmingCharacters(in: .whitespacesAndNewlines)`. */
  function Trim(s: string): (r: string)
    ensures |r| <= |s|
    ensures r != [] ==> !IsWhite(r[0]) && !IsWhite(r[|r| - 1])
  {
    TrimSet(s, BlanksAndNewlines)
  }

  /** Swift `trimmingCharacters(in: .whitespaces)`: newlines are kept. */
  function TrimBlanks(s: string): (r: string)
    ensures |r| <= |s|
    ensures r != [] ==> !IsBlank(r[0]) && !IsBlank(r[|r| - 1])
  {
    TrimSet(s, Blanks)
  }

  /** Kotlin `trim()`: strips `Char.isWhitespace` characters from both ends. */
  function KotlinTrim(s: string): (r: string)
    ensures |r| <= |s|
    ensures r != [] ==> !IsKotlinWhitespace(r[0]) && !IsKotlinWhitespace(r[|r| - 1])
  {
    TrimSet(s, KotlinWhitespace)
  }

  /** Trimming a trimmed string changes nothing, for every set. */
  lemma TrimSetIdempotent(s: string, w: WhiteSet)
    ensures TrimSet(TrimSet(s, w), w) == TrimSet(s, w)
  {
  }

  /** The leading and trailing strips agree on two sets that agree on every character of `s`. */
  lemma {:induction false} DropLeadingAgree(s: string, w1: WhiteSet, w2: WhiteSet)
    requires forall i :: 0 <= i < |s| ==> (InSet(s[i], w1) <==> InSet(s[i], w2))
    ensures DropLeading(s, w1) == DropLeading(s, w2)
  {
    if s != [] && InSet(s[0], w1) {
      DropLeadingAgree(s[1..], w1, w2);
    }
  }

  lemma {:induction false} DropTrailingAgree(s: string, w1: WhiteSet, w2: WhiteSet)
    requires forall i :: 0 <= i < |s| ==> (InSet(s[i], w1) <==> InSet(s[i], w2))
    ensures DropTrailing(s, w1) == DropTrailing(s, w2)
  {
    if s != [] && InSet(s[|s| - 1], w1) {
      DropTrailingAgree(s[..|s| - 1], w1, w2);
    }
  }

  /** Kotlin's `trim()` and Foundation's trim agree on text free of U+0085 and U+001C-U+001F. */
  lemma KotlinTrimAgrees(s: string)
    requires forall i :: 0 <= i < |s| ==> !WhitespaceDiffers(s[i])
    ensures KotlinTrim(s) == Trim(s)
  {
    forall i | 0 <= i < |s| ensures InSet(s[i], KotlinWhitespace) <==> InSet(s[i], BlanksAndNewlines) {
      KotlinWhitespaceAgrees(s[i]);
    }
    DropLeadingAgree(s, KotlinWhitespace, BlanksAndNewlines);
    var l := DropLeading(s, BlanksAndNewlines);
    DropLeadingSuffix(s, BlanksAndNewlines);
    assert forall i :: 0 <= i < |l| ==> l[i] == s[|s| - |l| + i];
    DropTrailingAgree(l, KotlinWhitespace, BlanksAndNewlines);
  }

  /** Kotlin `isBlank()`: empty or only `Char.isWhitespace` characters. */
  predicate KotlinIsBlank(s: string)
  {
    forall i :: 0 <= i < |s| ==> IsKotlinWhitespace(s[i])
  }

  /** A string whose ends lie outside the set is its own trim. */
  lemma TrimSetOfTrimmed(s: string, w: WhiteSet)
    requires s != [] ==> !InSet(s[0], w) && !InSet(s[|s| - 1], w)
    ensures TrimSet(s, w) == s
  {
  }

  /** A Kotlin-blank string trims to nothing. */
  lemma KotlinTrimOfBlank(s: string)
    requires KotlinIsBlank(s)
    ensures KotlinTrim(s) == []
  {
    DropLeadingSuffix(s, KotlinWhitespace);
  }

  /** All-white padding around `s` is invisible to `DropLeading`. */
  lemma {:induction false} DropLeadingPadding(pad: string, s: string, w: WhiteSet)
    requires forall i :: 0 <= i < |pad| ==> InSet(pad[i], w)
    ensures DropLeading(pad + s, w) == DropLeading(s, w)
  {
    if pad != [] {
      assert (pad + s)[0] == pad[0];
      assert (pad + s)[1..] == pad[1..] + s;
      DropLeadingPadding(pad[1..], s, w);
    } else {
      assert pad + s == s;
    }
  }

  lemma {:induction false} DropTrailingPadding(s: string, pad: string, w: WhiteSet)
    requires forall i :: 0 <= i < |pad| ==> InSet(pad[i], w)
    ensures DropTrailing(s + pad, w) == DropTrailing(s, w)
  {
    if pad != [] {
      var n := |pad| - 1;
      var t := s + pad;
      assert t[|t| - 1] == pad[n];
      assert t[..|t| - 1] == s + pad[..n];
      DropTrailingPadding(s, pad[..n], w);
    } else {
      assert s + pad == s;
    }
  }

  /** Leading trimming of a concatenation: once `s` has a non-blank character the tail is untouched. */
  lemma {:induction false} DropLeadingAppend(s: string, t: string, w: WhiteSet)
    ensures DropLeading(s, w) != [] ==> DropLeading(s + t, w) == DropLeading(s, w) + t
    ensures DropLeading(s, w) == [] ==> DropLeading(s + t, w) == DropLeading(t, w)
  {
    if s == [] {
      assert s + t == t;
    } else if InSet(s[0], w) {
      assert (s + t)[0] == s[0];
      assert (s + t)[1..] == s[1..] + t;
      assert DropLeading(s, w) == DropLeading(s[1..], w);
      assert DropLeading(s + t, w) == DropLeading(s[1..] + t, w);
      DropLeadingAppend(s[1..], t, w);
    } else {
      assert (s + t)[0] == s[0];
      assert DropLeading(s, w) == s;
      assert DropLeading(s + t, w) == s + t;
    }
  }

  /** Trimming ignores any white padding on either side. */
  lemma TrimPadding(pre: string, s: string, post: string)
    requires forall i :: 0 <= i < |pre| ==> IsWhite(pre[i])
    requires forall i :: 0 <= i < |post| ==> IsWhite(post[i])
    ensures Trim(pre + s + post) == Trim(s)
  {
    assert pre + s + post == pre + (s + post);
    DropLeadingPadding(pre, s + post, BlanksAndNewlines);
    DropLeadingAppend(s, post, BlanksAndNewlines);
    if DropLeading(s, BlanksAndNewlines) == [] {
      DropLeadingPadding(post, [], BlanksAndNewlines);
      assert post + [] == post;
      assert DropLeading([], BlanksAndNewlines) == [];
    } else {
      DropTrailingPadding(DropLeading(s, BlanksAndNewlines), post, BlanksAndNewlines);
    }
  }

  /** A string without white ends is its own trim. */
  lemma TrimOfTrimmed(s: string)
    requires s != [] ==> !IsWhite(s[0]) && !IsWhite(s[|s| - 1])
    ensures Trim(s) == s
  {
  }

  /** Empty or only Foundation whitespace: what trims to nothing. */
  predicate IsBlankString(s: string)
  {
    forall i :: 0 <= i < |s| ==> IsWhite(s[i])
  }

  /** A string trims to nothing exactly when it is blank. */
  lemma TrimEmptyIffBlank(s: string)
    ensures Trim(s) == [] <==> IsBlankString(s)
  {
    var l := DropLeading(s, BlanksAndNewlines);
    DropLeadingSuffix(s, BlanksAndNewlines);
    DropTrailingPrefix(l, BlanksAndNewlines);
    if l != [] {
      assert !IsWhite(l[0]);
      assert !IsWhite(s[|s| - |l|]);
    }
  }

  /** Every character of a trim comes from the trimmed string. */
  lemma TrimSetWithin(s: string, w: WhiteSet)
    ensures forall i :: 0 <= i < |TrimSet(s, w)| ==> TrimSet(s, w)[i] in s
  {
    var l := DropLeading(s, w);
    DropLeadingSuffix(s, w);
    DropTrailingPrefix(l, w);
    var r := TrimSet(s, w);
    forall i | 0 <= i < |r| ensures r[i] in s {
      assert r[i] == l[i] == s[|s| - |l| + i];
    }
  }

  // ------------------------------------------------------------ UTF-16 length

  /** A character outside the Basic Multilingual Plane, stored as a surrogate pair in UTF-16. */
  predicate IsAstral(c: char)
  {
    c as int > 0xFFFF
  }

  function Utf16Units(c: char): nat
  {
    if IsAstral(c) then 2 else 1
  }

  /**
   * Kotlin's `String.length`: the number of UTF-16 code units. It equals
   * the number of characters exactly when none is astral, and twice it
   * exactly when all are.
   */
  function Utf16Length(s: string): (n: nat)
    ensures |s| <= n <= 2 * |s|
    ensures n == |s| <==> forall i :: 0 <= i < |s| ==> !IsAstral(s[i])
    ensures n == 2 * |s| <==> forall i :: 0 <= i < |s| ==> IsAstral(s[i])
  {
    if s == [] then 0
    else
      var n := Utf16Units(s[0]) + Utf16Length(s[1..]);
      assert forall i :: 1 <= i < |s| ==> s[i] == s[1..][i - 1];
      n
  }

  /**
   * Kotlin's `take(n)` measured in UTF-16 units, on whole characters: the
   * longest prefix that fits in `n` units. The next character, if any,
   * would not fit.
   */
  function TakeUtf16(s: string, n: nat): (r: string)
    ensures r <= s && Utf16Length(r) <= n
    ensures Utf16Length(s) <= n ==> r == s
    ensures r != s ==> n < Utf16Length(r) + Utf16Units(s[|r|])
  {
    if s == [] || Utf16Units(s[0]) > n then []
    else
      var rest := TakeUtf16(s[1..], n - Utf16Units(s[0]));
      assert ([s[0]] + rest)[1..] == rest;
      [s[0]] + rest
  }

  /** Without astral characters the unit count is the character count, and `take` is a plain prefix. */
  lemma TakeUtf16OfBmp(s: string, n: nat)
    requires forall i :: 0 <= i < |s| ==> !IsAstral(s[i])
    ensures TakeUtf16(s, n) == s[..if |s| <= n then |s| else n]
  {
    var r := TakeUtf16(s, n);
    assert r == s[..|r|];
    assert forall i :: 0 <= i < |r| ==> !IsAstral(r[i]) by {
      assert forall i :: 0 <= i < |r| ==> r[i] == s[i];
    }
    assert Utf16Length(r) == |r|;
  }

  // ------------------------------------------------------------ decimals

  function DigitChar(d: nat): (c: char)
    requires d < 10
    ensures '0' <= c <= '9'
  {
    ('0' as int + d) as char
  }

  predicate IsDigit(c: char) { '0' <= c <= '9' }

  function DigitValue(c: char): (d: nat)
    requires IsDigit(c)
    ensures d < 10 && DigitChar(d) == c
  {
    c as int - '0' as int
  }

  /** Decimal rendering of a natural number, as `"\(n)"` / `"$n"` print it. */
  function NatToString(n: nat): (r: string)
    ensures r != [] && forall i :: 0 <= i < |r| ==> IsDigit(r[i])
    decreases n
  {
    if n < 10 then [DigitChar(n)] else NatToString(n / 10) + [DigitChar(n % 10)]
  }

  /** Decimal rendering of any integer, with a leading '-' when negative. */
  function IntToString(n: int): (r: string)
    ensures r != []
  {
    if n < 0 then "-" + NatToString(-n) else NatToString(n)
  }

  /** `String.format("%02d", n)`: zero-padded to at least two characters. */
  function Pad2(n: int): (r: string)
    ensures |r| >= 2
    ensures 0 <= n < 10 ==> r == "0" + [DigitChar(n)]
  {
    if 0 <= n < 10 then "0" + [DigitChar(n)] else IntToString(n)
  }

  /** Two-digit padding reads back as the number it renders. */
  lemma Pad2Value(n: int)
    requires 0 <= n < 100
    ensures |Pad2(n)| == 2 && forall i :: 0 <= i < 2 ==> IsDigit(Pad2(n)[i])
    ensures DigitsValue(Pad2(n)) == n
  {
    if n < 10 {
      var p := Pad2(n);
      assert p[..1] == "0";
      assert DigitsValue("0") == 0 by { assert "0"[..0] == []; }
    } else {
      DigitsOfNat(n);
      assert NatToString(n) == NatToString(n / 10) + [DigitChar(n % 10)];
    }
  }

  /** The value of a non-empty run of decimal digits. */
  function DigitsValue(s: string): (n: nat)
    requires forall i :: 0 <= i < |s| ==> IsDigit(s[i])
    decreases |s|
  {
    if s == [] then 0 else DigitsValue(s[..|s| - 1]) * 10 + DigitValue(s[|s| - 1])
  }

  lemma {:induction false} DigitsOfNat(n: nat)
    ensures DigitsValue(NatToString(n)) == n
    decreases n
  {
    if n >= 10 {
      DigitsOfNat(n / 10);
      var s := NatToString(n);
      assert s[..|s| - 1] == NatToString(n / 10);
    }
  }

  /** The range of Swift's 64-bit `Int`. */
  const Int64Min: int := -0x8000_0000_0000_0000
  const Int64Max: int := 0x7FFF_FFFF_FFFF_FFFF

  predicate InInt64(n: int)
  {
    Int64Min <= n <= Int64Max
  }

  /**
   * The text `Int(String)` accepts: an optional '+' or '-' followed by at
   * least one decimal digit and nothing else, read at any size.
   */
  function SignedDigits(s: string): (r: Option<int>)
    ensures r.Some? ==> s != []
  {
    if s == [] then None
    else if (s[0] == '-' || s[0] == '+') then
      var body := s[1..];
      if body != [] && forall i :: 0 <= i < |body| ==> IsDigit(body[i]) then
        var v: int := DigitsValue(body);
        Some(if s[0] == '-' then -v else v)
      else None
    else if forall i :: 0 <= i < |s| ==> IsDigit(s[i]) then Some(DigitsValue(s))
    else None
  }

  /**
   * Swift `Int(String)`: signed decimal text whose value fits a 64-bit
   * `Int`; anything else, an overflowing number included, is nil.
   */
  function ParseInt(s: string): (r: Option<int>)
    ensures r.Some? ==> s != [] && InInt64(r.value)
  {
    var v := SignedDigits(s);
    if v.Some? && InInt64(v.value) then v else None
  }

  /** Reading the decimal rendering of any integer gives it back. */
  lemma SignedDigitsOfIntToString(n: int)
    ensures SignedDigits(IntToString(n)) == Some(n)
  {
    var s := IntToString(n);
    if n < 0 {
      var digits := NatToString(-n);
      DigitsOfNat(-n);
      assert s == "-" + digits;
      assert s[0] == '-' && s[1..] == digits;
    } else {
      var digits := NatToString(n);
      DigitsOfNat(n);
      assert s == digits && IsDigit(s[0]);
    }
  }

  /** Rendering then parsing gives back any number a 64-bit `Int` holds. */
  lemma ParseIntOfIntToString(n: int)
    requires InInt64(n)
    ensures ParseInt(IntToString(n)) == Some(n)
  {
    SignedDigitsOfIntToString(n);
  }

  /** One past the largest `Int` is well-formed decimal text, yet parses to nil. */
  lemma ParseIntOverflows()
    ensures var s := IntToString(Int64Max + 1);
      (forall i :: 0 <= i < |s| ==> IsDigit(s[i])) && ParseInt(s).None?
  {
    SignedDigitsOfIntToString(Int64Max + 1);
  }

  /** Two zero-padded digits parse back to their number. */
  lemma Pad2Parses(n: int)
    requires 0 <= n < 100
    ensures ParseInt(Pad2(n)) == Some(n)
  {
    Pad2Value(n);
    assert IsDigit(Pad2(n)[0]);
  }

  // ----------------------------------------------------------- substrings

  predicate StartsWith(s: string, prefix: string)
  {
    |prefix| <= |s| && s[..|prefix|] == prefix
  }

  predicate EndsWith(s: string, suffix: string)
  {
    |suffix| <= |s| && s[|s| - |suffix|..] == suffix
  }

  /** Swift `contains` / Kotlin `contains` for a substring. */
  predicate Contains(s: string, sub: string)
  {
    exists i | 0 <= i <= |s| - |sub| :: OccursAt(s, sub, i)
  }

  /** `sub` occurs in `s` starting at index `i`. */
  predicate OccursAt(s: string, sub: string, i: int)
  {
    0 <= i <= |s| - |sub| && s[i..i + |sub|] == sub
  }

  /** Joins the parts with a separator between consecutive parts. */
  function Join(parts: seq<string>, sep: string): (r: string)
    ensures parts == [] ==> r == []
    ensures |parts| == 1 ==> r == parts[0]
  {
    if parts == [] then []
    else if |parts| == 1 then parts[0]
    else Join(parts[..|parts| - 1], sep) + sep + parts[|parts| - 1]
  }

  /** Joining after at least one more part adds the separator and that part. */
  lemma {:induction false} JoinCons(a: string, xs: seq<string>, sep: string)
    requires xs != []
    ensures Join([a] + xs, sep) == a + sep + Join(xs, sep)
    decreases |xs|
  {
    var n := |xs|;
    if n == 1 {
      assert [a] + xs == [a, xs[0]];
      assert [a, xs[0]][..1] == [a];
    } else {
      var w := [a] + xs;
      assert w[..|w| - 1] == [a] + xs[..n - 1];
      assert w[|w| - 1] == xs[n - 1];
      JoinCons(a, xs[..n - 1], sep);
    }
  }

  /** A prefix on the first part is a prefix of the whole join. */
  lemma JoinFirstExtend(c: string, x: string, xs: seq<string>, sep: string)
    ensures Join([c + x] + xs, sep) == c + Join([x] + xs, sep)
  {
    if xs != [] {
      JoinCons(c + x, xs, sep);
      JoinCons(x, xs, sep);
    }
  }

  /**
   * Splitting at a set of separator characters and joining with one
   * character replaces each separator by that character.
   */
  lemma {:induction false} JoinComponents(s: string, isSep: char -> bool, repl: char)
    ensures Join(Components(s, isSep), [repl]) == seq(|s|, i requires 0 <= i < |s| => if isSep(s[i]) then repl else s[i])
    decreases |s|
  {
    var m := seq(|s|, i requires 0 <= i < |s| => if isSep(s[i]) then repl else s[i]);
    if s != [] {
      var rest := Components(s[1..], isSep);
      JoinComponents(s[1..], isSep, repl);
      var mt := seq(|s| - 1, i requires 0 <= i < |s| - 1 => if isSep(s[1..][i]) then repl else s[1..][i]);
      assert m == [m[0]] + mt;
      assert mt == m[1..];
      if isSep(s[0]) {
        assert Components(s, isSep) == [[]] + rest;
        JoinCons([], rest, [repl]);
        assert m[0] == repl;
      } else {
        assert Components(s, isSep) == [[s[0]] + rest[0]] + rest[1..];
        JoinFirstExtend([s[0]], rest[0], rest[1..], [repl]);
        assert [rest[0]] + rest[1..] == rest;
        assert m[0] == s[0];
      }
    }
  }

  /** Swift `components(separatedBy:)`: splits at every separator character; empty pieces are kept. */
  function Components(s: string, isSep: char -> bool): (r: seq<string>)
    ensures |r| >= 1
    ensures forall k, i :: 0 <= k < |r| && 0 <= i < |r[k]| ==> !isSep(r[k][i])
    decreases |s|
  {
    if s == [] then [[]]
    else
      var rest := Components(s[1..], isSep);
      if isSep(s[0]) then [[]] + rest
      else [[s[0]] + rest[0]] + rest[1..]
  }

  /** Swift `split(separator:)`: the non-empty pieces between separators. */
  function SplitNonEmpty(s: string, sep: char): (r: seq<string>)
    ensures forall k :: 0 <= k < |r| ==> r[k] != [] && sep !in r[k]
  {
    var all := Components(s, c => c == sep);
    NonEmpty(all, sep)
  }

  function NonEmpty(parts: seq<string>, sep: char): (r: seq<string>)
    requires forall k :: 0 <= k < |parts| ==> sep !in parts[k]
    ensures forall k :: 0 <= k < |r| ==> r[k] != [] && sep !in r[k]
    ensures |r| <= |parts|
  {
    if parts == [] then []
    else if parts[0] == [] then NonEmpty(parts[1..], sep)
    else [parts[0]] + NonEmpty(parts[1..], sep)
  }

  /** The pieces of a blank string are blank. */
  lemma {:induction false} ComponentsOfBlank(s: string, isSep: char -> bool)
    requires IsBlankString(s)
    ensures forall k :: 0 <= k < |Components(s, isSep)| ==> IsBlankString(Components(s, isSep)[k])
    decreases |s|
  {
    if s != [] {
      var rest := Components(s[1..], isSep);
      ComponentsOfBlank(s[1..], isSep);
      var r := Components(s, isSep);
      forall k | 0 <= k < |r|
        ensures IsBlankString(r[k])
      {
        if isSep(s[0]) {
          assert k > 0 ==> r[k] == rest[k - 1];
        } else if k == 0 {
          assert r[0] == [s[0]] + rest[0];
        } else {
          assert r[k] == rest[k];
        }
      }
    }
  }

  /** A piece without separators is its own single component. */
  lemma {:induction false} ComponentsWithoutSeparator(a: string, isSep: char -> bool)
    requires forall i :: 0 <= i < |a| ==> !isSep(a[i])
    ensures Components(a, isSep) == [a]
  {
    if a != [] {
      ComponentsWithoutSeparator(a[1..], isSep);
      assert [a[0]] + a[1..] == a;
    }
  }

  /** A separator between two texts splits their components apart. */
  lemma {:induction false} ComponentsAtSeparator(a: string, c: char, b: string, isSep: char -> bool)
    requires isSep(c)
    ensures Components(a + [c] + b, isSep) == Components(a, isSep) + Components(b, isSep)
  {
    if a == [] {
      assert a + [c] + b == [c] + b;
      ComponentsCons(c, b, isSep);
    } else {
      var left, tail := Components(a[1..], isSep), Components(b, isSep);
      ComponentsAtSeparator(a[1..], c, b, isSep);
      ComponentsAfterFirst(a, c, b, isSep);
      GlueFirst(a[0], left, tail);
    }
  }

  /** Gluing a character onto the first piece commutes with appending more pieces. */
  lemma GlueFirst(x: char, left: seq<string>, tail: seq<string>)
    requires |left| >= 1
    ensures [[x] + (left + tail)[0]] + (left + tail)[1..] == ([[x] + left[0]] + left[1..]) + tail
    ensures [[]] + (left + tail) == ([[]] + left) + tail
  {
    assert (left + tail)[0] == left[0] && (left + tail)[1..] == left[1..] + tail;
  }

  /** One unfolding of `Components` on a text written as its first character and the rest. */
  lemma ComponentsCons(x: char, t: string, isSep: char -> bool)
    ensures var rest := Components(t, isSep);
      Components([x] + t, isSep) == if isSep(x) then [[]] + rest else [[x] + rest[0]] + rest[1..]
  {
    assert ([x] + t)[0] == x && ([x] + t)[1..] == t;
  }

  /** One unfolding of `Components` on `a + [c] + b` for a non-empty `a`. */
  lemma ComponentsAfterFirst(a: string, c: char, b: string, isSep: char -> bool)
    requires a != []
    ensures var rest := Components(a[1..] + [c] + b, isSep);
      Components(a + [c] + b, isSep) == if isSep(a[0]) then [[]] + rest else [[a[0]] + rest[0]] + rest[1..]
  {
    var s := a + [c] + b;
    assert s[0] == a[0] && s[1..] == a[1..] + [c] + b;
  }


  /** Dropping empty pieces distributes over concatenation. */
  lemma {:induction false} NonEmptyAppend(xs: seq<string>, ys: seq<string>, sep: char)
    requires forall k :: 0 <= k < |xs| ==> sep !in xs[k]
    requires forall k :: 0 <= k < |ys| ==> sep !in ys[k]
    ensures NonEmpty(xs + ys, sep) == NonEmpty(xs, sep) + NonEmpty(ys, sep)
  {
    if xs != [] {
      assert (xs + ys)[0] == xs[0] && (xs + ys)[1..] == xs[1..] + ys;
      NonEmptyAppend(xs[1..], ys, sep);
    } else {
      assert xs + ys == ys;
    }
  }

  /** Three non-empty pieces without the separator, joined by it, split back into those pieces. */
  lemma SplitThree(a: string, b: string, c: string, sep: char)
    requires a != [] && b != [] && c != [] && sep !in a && sep !in b && sep !in c
    ensures SplitNonEmpty(a + [sep] + b + [sep] + c, sep) == [a, b, c]
  {
    var isSep := (x: char) => x == sep;
    ComponentsWithoutSeparator(a, isSep);
    ComponentsWithoutSeparator(b, isSep);
    ComponentsWithoutSeparator(c, isSep);
    ComponentsAtSeparator(b, sep, c, isSep);
    assert a + [sep] + b + [sep] + c == a + [sep] + (b + [sep] + c);
    ComponentsAtSeparator(a, sep, b + [sep] + c, isSep);
    var all := Components(a + [sep] + b + [sep] + c, isSep);
    assert all == [a] + [b] + [c] == [a, b, c];
    assert NonEmpty([c], sep) == [c];
    assert NonEmpty([b, c], sep) == [b] + NonEmpty([c], sep);
  }

  /** Replaces every occurrence of `c` with the string `repl`. */
  function ReplaceChar(s: string, c: char, repl: string): (r: string)
    ensures c !in repl ==> c !in r
    ensures forall d :: d in r ==> d in repl || (d in s && d != c)
    ensures |repl| == 1 ==> |r| == |s| && forall i :: 0 <= i < |s| ==> r[i] == (if s[i] == c then repl[0] else s[i])
  {
    if s == [] then []
    else (if s[0] == c then repl else [s[0]]) + ReplaceChar(s[1..], c, repl)
  }
}
