/**
 * String helpers shared by the whole model: Python's notion of whitespace,
 * strip/lstrip/rstrip, str.split on one separator character, substring and
 * prefix tests, str() of an integer, and lower()/upper().
 *
 * Character classes follow Python 3 exactly on Latin-1 (U+0000..U+00FF); a
 * character above U+00FF is treated as neither space, word character, digit
 * nor cased letter.
 */
module Text {

  // ---------------------------------------------------------------------
  // Character classes
  // ---------------------------------------------------------------------

  /** str.isspace() / regex \s on Latin-1: \t \n \v \f \r, U+001C..U+001F, space, U+0085, U+00A0. */
  predicate IsSpace(c: char) {
    var k := c as int;
    k == 32 || 9 <= k <= 13 || 28 <= k <= 31 || k == 0x85 || k == 0xA0
  }

  predicate IsAsciiDigit(c: char) { '0' <= c <= '9' }

  predicate IsAsciiUpper(c: char) { 'A' <= c <= 'Z' }

  predicate IsAsciiLower(c: char) { 'a' <= c <= 'z' }

  /** str.isdigit() for one Latin-1 character: 0-9 and the superscripts ¹ ² ³. */
  predicate IsDigitChar(c: char) {
    var k := c as int;
    IsAsciiDigit(c) || k == 0xB2 || k == 0xB3 || k == 0xB9
  }

  /** Regex \w (Unicode str pattern) on Latin-1: letters, digits, numerics and '_'. */
  predicate IsWordChar(c: char) {
    var k := c as int;
    IsAsciiDigit(c) || IsAsciiUpper(c) || IsAsciiLower(c) || c == '_'
    || k == 0xAA || k == 0xB2 || k == 0xB3 || k == 0xB5 || k == 0xB9 || k == 0xBA
    || 0xBC <= k <= 0xBE || 0xC0 <= k <= 0xD6 || 0xD8 <= k <= 0xF6 || 0xF8 <= k <= 0xFF
  }

  lemma WordCharIsNotSpace(c: char)
    ensures IsWordChar(c) ==> !IsSpace(c)
  {
  }

  // ---------------------------------------------------------------------
  // Trimming
  // ---------------------------------------------------------------------

  /** Drops the longest prefix whose characters satisfy p (lstrip with a class). */
  function TrimLeft(s: string, p: char -> bool): (r: string)
    ensures |r| <= |s| && r == s[|s| - |r|..]
    ensures r == [] || !p(r[0])
    ensures forall i :: 0 <= i < |s| - |r| ==> p(s[i])
    ensures s != [] && p(s[0]) ==> |r| < |s|
  {
    if s != [] && p(s[0]) then TrimLeft(s[1..], p) else s
  }

  /** Drops the longest suffix whose characters satisfy p (rstrip with a class). */
  function TrimRight(s: string, p: char -> bool): (r: string)
    ensures |r| <= |s| && r == s[..|r|]
    ensures r == [] || !p(r[|r| - 1])
    ensures forall i :: |r| <= i < |s| ==> p(s[i])
  {
    if s != [] && p(s[|s| - 1]) then TrimRight(s[..|s| - 1], p) else s
  }

  /** str.strip() with no argument. */
  function Strip(s: string): (r: string)
    ensures r == [] || (!IsSpace(r[0]) && !IsSpace(r[|r| - 1]))
    ensures |r| <= |s|
    ensures forall c :: c in r ==> c in s
  {
    var l := TrimLeft(s, IsSpace);
    var r := TrimRight(l, IsSpace);
    assert r == s[|s| - |l|..|s| - |l| + |r|];
    r
  }

  /**
   * strip() keeps a slice of s: what it cuts off before and after is
   * whitespace, and everything in between is kept as it is.
   */
  lemma StripIsSlice(s: string)
    ensures exists a :: Trims(s, a, Strip(s))
  {
    var l := TrimLeft(s, IsSpace);
    var r := TrimRight(l, IsSpace);
    var a := |s| - |l|;
    assert r == s[a..a + |r|];
    SpacesBefore(s, a);
    SpacesAfter(s, l, r);
    assert Strip(s) == r;
    assert Trims(s, a, r);
  }

  lemma SpacesBefore(s: string, a: nat)
    requires a <= |s| && forall i :: 0 <= i < a ==> IsSpace(s[i])
    ensures AllSpace(s[..a])
  {
    assert forall i :: 0 <= i < a ==> s[..a][i] == s[i];
  }

  lemma SpacesAfter(s: string, l: string, r: string)
    requires |l| <= |s| && l == s[|s| - |l|..] && |r| <= |l| && forall i :: |r| <= i < |l| ==> IsSpace(l[i])
    ensures AllSpace(s[|s| - |l| + |r|..])
  {
    assert s[|s| - |l| + |r|..] == l[|r|..];
    assert forall i :: 0 <= i < |l| - |r| ==> l[|r|..][i] == l[i + |r|];
  }

  /** A string of whitespace only (the empty string included). */
  predicate AllSpace(s: string) {
    forall i :: 0 <= i < |s| ==> IsSpace(s[i])
  }

  /** r is s with a whitespace prefix of length a and a whitespace suffix cut off. */
  predicate Trims(s: string, a: nat, r: string) {
    a + |r| <= |s| && r == s[a..a + |r|] && AllSpace(s[..a]) && AllSpace(s[a + |r|..])
  }

  /** Every property shared by all characters of s is shared by the characters that trimming both ends with p keeps. */
  lemma TrimPreserves(s: string, p: char -> bool, q: char -> bool)
    requires forall i :: 0 <= i < |s| ==> q(s[i])
    ensures forall i :: 0 <= i < |TrimRight(TrimLeft(s, p), p)| ==> q(TrimRight(TrimLeft(s, p), p)[i])
  {
    var l := TrimLeft(s, p);
    var r := TrimRight(l, p);
    var a := |s| - |l|;
    assert r == s[a..a + |r|];
    forall i | 0 <= i < |r| ensures q(r[i]) {
      assert r[i] == s[a + i];
    }
  }

  /** Every property shared by all characters of s is shared by all characters strip() keeps. */
  lemma StripPreserves(s: string, q: char -> bool)
    requires forall i :: 0 <= i < |s| ==> q(s[i])
    ensures forall i :: 0 <= i < |Strip(s)| ==> q(Strip(s)[i])
  {
    TrimPreserves(s, IsSpace, q);
  }

  /** str.rstrip() with no argument. */
  function RStrip(s: string): (r: string)
    ensures r == [] || !IsSpace(r[|r| - 1])
    ensures |r| <= |s| && r == s[..|r|]
    ensures forall i :: |r| <= i < |s| ==> IsSpace(s[i])
  {
    TrimRight(s, IsSpace)
  }

  /** A string without a leading or trailing whitespace character. */
  predicate IsStripped(s: string) {
    s == [] || (!IsSpace(s[0]) && !IsSpace(s[|s| - 1]))
  }

  lemma {:induction false} TrimLeftIdentity(s: string, p: char -> bool)
    requires s == [] || !p(s[0])
    ensures TrimLeft(s, p) == s
  {
  }

  lemma {:induction false} TrimRightIdentity(s: string, p: char -> bool)
    requires s == [] || !p(s[|s| - 1])
    ensures TrimRight(s, p) == s
  {
  }

  /** strip() leaves a stripped string alone, so stripping twice is stripping once. */
  lemma StripIdempotent(s: string)
    ensures IsStripped(Strip(s))
    ensures Strip(Strip(s)) == Strip(s)
  {
    var t := Strip(s);
    TrimLeftIdentity(t, IsSpace);
    TrimRightIdentity(t, IsSpace);
  }

  /** strip() leaves an already stripped string alone. */
  lemma StripOfStripped(s: string)
    requires IsStripped(s)
    ensures Strip(s) == s
  {
    TrimLeftIdentity(s, IsSpace);
    TrimRightIdentity(s, IsSpace);
  }

  /** A string is blank after strip() exactly when every character is whitespace. */
  lemma {:induction false} StripEmptyIffBlank(s: string)
    ensures Strip(s) == [] <==> forall i :: 0 <= i < |s| ==> IsSpace(s[i])
  {
    var l := TrimLeft(s, IsSpace);
    if l == [] {
    } else {
      assert !IsSpace(l[0]);
      assert l[0] == s[|s| - |l|];
    }
  }

  // ---------------------------------------------------------------------
  // Prefixes and substrings
  // ---------------------------------------------------------------------

  predicate StartsWith(s: string, prefix: string) {
    |prefix| <= |s| && s[..|prefix|] == prefix
  }

  predicate EndsWith(s: string, suffix: string) {
    |suffix| <= |s| && s[|s| - |suffix|..] == suffix
  }

  /** Python's `needle in hay` for strings. */
  predicate Contains(hay: string, needle: string)
    decreases |hay|
  {
    StartsWith(hay, needle) || (hay != [] && Contains(hay[1..], needle))
  }

  /** The needle sits in the hay at position i. */
  predicate SliceAt(hay: string, needle: string, i: int) {
    0 <= i && i + |needle| <= |hay| && hay[i..i + |needle|] == needle
  }

  /** `needle in hay` holds exactly when the needle sits somewhere in the hay. */
  lemma {:induction false} ContainsSlice(hay: string, needle: string)
    ensures Contains(hay, needle) <==> exists i :: SliceAt(hay, needle, i)
    decreases |hay|
  {
    var n := |needle|;
    if Contains(hay, needle) {
      if StartsWith(hay, needle) {
        assert SliceAt(hay, needle, 0);
      } else {
        ContainsSlice(hay[1..], needle);
        var i :| SliceAt(hay[1..], needle, i);
        assert hay[1..][i..i + n] == hay[i + 1..i + 1 + n];
        assert SliceAt(hay, needle, i + 1);
      }
    }
    if exists i :: SliceAt(hay, needle, i) {
      var i :| SliceAt(hay, needle, i);
      if i > 0 {
        assert hay[1..][i - 1..i - 1 + n] == hay[i..i + n];
        assert SliceAt(hay[1..], needle, i - 1);
        ContainsSlice(hay[1..], needle);
      } else {
        assert StartsWith(hay, needle);
      }
    }
  }

  // ---------------------------------------------------------------------
  // str() of an integer
  // ---------------------------------------------------------------------

  function DigitChar(d: nat): (c: char)
    requires d < 10
    ensures IsAsciiDigit(c) && c as int - '0' as int == d
  {
    (d + '0' as int) as char
  }

  predicate AllDigits(s: string) {
    forall i :: 0 <= i < |s| ==> IsAsciiDigit(s[i])
  }

  /** Decimal numeral of n, most significant digit first, no leading zeros. */
  function NatToString(n: nat): (r: string)
    ensures r != [] && AllDigits(r)
    ensures |r| > 1 ==> r[0] != '0'
  {
    if n < 10 then [DigitChar(n)] else NatToString(n / 10) + [DigitChar(n % 10)]
  }

  /** Reads a string of ASCII digits back as a number (the inverse of NatToString). */
  function DigitsValue(s: string): nat
    requires AllDigits(s)
  {
    if s == [] then 0 else DigitsValue(s[..|s| - 1]) * 10 + (s[|s| - 1] as int - '0' as int)
  }

  lemma {:induction false} DigitsValueOfNatToString(n: nat)
    ensures DigitsValue(NatToString(n)) == n
  {
    if n >= 10 {
      var s := NatToString(n);
      assert s[..|s| - 1] == NatToString(n / 10);
      DigitsValueOfNatToString(n / 10);
    }
  }

  /** Distinct numbers print differently. */
  lemma NatToStringInjective(a: nat, b: nat)
    requires NatToString(a) == NatToString(b)
    ensures a == b
  {
    DigitsValueOfNatToString(a);
    DigitsValueOfNatToString(b);
  }

  /** A larger number never has a shorter numeral. */
  lemma {:induction false} NatToStringMonotone(a: nat, b: nat)
    requires a <= b
    ensures |NatToString(a)| <= |NatToString(b)|
  {
    if a >= 10 {
      NatToStringMonotone(a / 10, b / 10);
    }
  }

  /** str(i) for a Python int. */
  function IntToString(i: int): (r: string)
    ensures r != []
  {
    if i < 0 then "-" + NatToString(-i) else NatToString(i)
  }

  // ---------------------------------------------------------------------
  // str.split(sep) and its inverse
  // ---------------------------------------------------------------------

  /** str.split(sep) for a one-character separator: always at least one part. */
  function Split(s: string, sep: char): (parts: seq<string>)
    ensures |parts| >= 1
    ensures forall k :: 0 <= k < |parts| ==> sep !in parts[k]
  {
    if s == [] then [""]
    else if s[0] == sep then [""] + Split(s[1..], sep)
    else
      var rest := Split(s[1..], sep);
      [[s[0]] + rest[0]] + rest[1..]
  }

  /** sep.join(parts). */
  function Join(parts: seq<string>, sep: char): string
  {
    if parts == [] then ""
    else if |parts| == 1 then parts[0]
    else parts[0] + [sep] + Join(parts[1..], sep)
  }

  /** Splitting loses nothing: joining the parts back gives the original string. */
  lemma {:induction false} JoinSplit(s: string, sep: char)
    ensures Join(Split(s, sep), sep) == s
  {
    if s == [] {
    } else if s[0] == sep {
      JoinSplit(s[1..], sep);
      assert s == [sep] + s[1..];
    } else {
      JoinSplit(s[1..], sep);
      var rest := Split(s[1..], sep);
      assert s == [s[0]] + s[1..];
      if |rest| == 1 {
      } else {
        assert Join(rest, sep) == rest[0] + [sep] + Join(rest[1..], sep);
      }
    }
  }

  /** A string without the separator splits into itself alone. */
  lemma {:induction false} SplitWithoutSeparator(s: string, sep: char)
    requires sep !in s
    ensures Split(s, sep) == [s]
  {
    if s != [] {
      assert sep !in s[1..];
      SplitWithoutSeparator(s[1..], sep);
      assert s == [s[0]] + s[1..];
    }
  }

  // ---------------------------------------------------------------------
  // lower() / upper() on Latin-1
  // ---------------------------------------------------------------------

  /** Latin-1 upper-case letters: A-Z and U+00C0..U+00DE except the sign U+00D7. */
  predicate IsUpperLetter(c: char) {
    var k := c as int;
    IsAsciiUpper(c) || (0xC0 <= k <= 0xDE && k != 0xD7)
  }

  function LowerChar(c: char): (r: char)
    ensures !IsUpperLetter(r)
  {
    if IsUpperLetter(c) then (c as int + 32) as char else c
  }

  /** str.lower(): every Latin-1 capital is mapped to its small letter. */
  function Lower(s: string): (r: string)
    ensures |r| == |s|
    ensures forall i :: 0 <= i < |r| ==> r[i] == LowerChar(s[i])
  {
    if s == [] then [] else [LowerChar(s[0])] + Lower(s[1..])
  }

  /** str.upper() of one character: a string, since 'ß' becomes "SS". */
  function UpperChar(c: char): (r: string)
    ensures c != SharpS ==> |r| == 1
    ensures c == SharpS ==> r == "SS"
    ensures IsLowerLetter(c) ==> r == [(c as int - 32) as char]
    ensures !IsCasedLatin1(c) ==> r == [c]
  {
    var k := c as int;
    if IsLowerLetter(c) then [(k - 32) as char]
    else if k == 0xDF then "SS"
    else if k == 0xFF then [0x178 as char]
    else if k == 0xB5 then [0x39C as char]
    else [c]
  }

  /** 'ß', the one Latin-1 letter whose capital is two letters. */
  const SharpS: char := 0xDF as char

  /** Latin-1 small letters with a one-letter Latin-1 capital 32 code points below: a-z and U+00E0..U+00FE except the sign U+00F7. */
  predicate IsLowerLetter(c: char) {
    var k := c as int;
    IsAsciiLower(c) || (0xE0 <= k <= 0xFE && k != 0xF7)
  }

  /** The Latin-1 characters upper() changes: the small letters, 'ß', 'ÿ' and the micro sign. */
  predicate IsCasedLatin1(c: char) {
    var k := c as int;
    IsLowerLetter(c) || k == 0xDF || k == 0xFF || k == 0xB5
  }

  /**
   * str.upper(): each character replaced by its capital form, in order; the
   * string only grows where an 'ß' becomes "SS".
   */
  function Upper(s: string): (r: string)
    ensures forall i :: 0 <= i < |r| ==> !IsAsciiLower(r[i])
    ensures |s| <= |r| <= 2 * |s|
    ensures SharpS !in s ==> |r| == |s| && forall i :: 0 <= i < |s| ==> [r[i]] == UpperChar(s[i])
  {
    if s == [] then [] else
      var r := UpperChar(s[0]) + Upper(s[1..]);
      assert SharpS !in s ==> forall i :: 1 <= i < |s| ==> s[i] == s[1..][i - 1];
      r
  }

  /** upper() works character by character, so it distributes over concatenation. */
  lemma {:induction false} UpperAppend(a: string, b: string)
    ensures Upper(a + b) == Upper(a) + Upper(b)
  {
    if a != [] {
      assert (a + b)[0] == a[0] && (a + b)[1..] == a[1..] + b;
      var c, u, v := UpperChar(a[0]), Upper(a[1..]), Upper(b);
      assert Upper(a + b) == c + Upper(a[1..] + b);
      UpperAppend(a[1..], b);
      assert Upper(a) == c + u;
      assert c + (u + v) == (c + u) + v;
    } else {
      assert a + b == b;
    }
  }

  /** lower() undoes upper() on small letters other than 'ß' and 'ÿ', whose capitals leave Latin-1. */
  lemma {:induction false} LowerOfUpper(s: string)
    requires forall i :: 0 <= i < |s| ==> IsLowerLetter(s[i]) && s[i] != SharpS
    ensures Lower(Upper(s)) == s
  {
    if s != [] {
      LowerOfUpper(s[1..]);
      LowerAppend(UpperChar(s[0]), Upper(s[1..]));
    }
  }

  /** lower() distributes over concatenation. */
  lemma {:induction false} LowerAppend(a: string, b: string)
    ensures Lower(a + b) == Lower(a) + Lower(b)
  {
    if a != [] {
      assert (a + b)[0] == a[0] && (a + b)[1..] == a[1..] + b;
      LowerAppend(a[1..], b);
    } else {
      assert a + b == b;
    }
  }

  /** Upper-casing a string of ASCII capitals, digits and Latin-1 capitals changes nothing. */
  lemma {:induction false} UpperOfUpper(s: string)
    requires forall i :: 0 <= i < |s| ==> !IsAsciiLower(s[i]) && (s[i] as int < 0xDF || s[i] as int == 0xF7 || 0x100 <= s[i] as int) && s[i] as int != 0xB5
    ensures Upper(s) == s
  {
    if s != [] {
      UpperOfUpper(s[1..]);
    }
  }
}
