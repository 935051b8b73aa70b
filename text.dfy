/** The three pieces of JavaScript string behaviour that the field validator
    relies on: `String.prototype.trim`, the `length` of a string (counted in
    UTF-16 code units) and the decimal text that `Number.prototype.toString`
    gives an integer. */
module JsText {

  /** The characters `trim` removes: ECMAScript's WhiteSpace (tab, vertical
      tab, form feed, space, no-break space, byte order mark and the Unicode
      "space separator" category) and LineTerminator (LF, CR, LS, PS). */
  predicate IsWhitespace(c: char)
    // each of them is one UTF-16 code unit, and none can start a number's text
    ensures IsWhitespace(c) ==> c as int <= 0xFFFF
    ensures IsWhitespace(c) ==> c != '-' && !('0' <= c <= '9')
  {
    if c <= ' ' then c == ' ' || '\t' <= c <= '\r'  // tab, LF, VT, FF, CR
    else if c < '\U{A0}' then false
    else
      c == '\U{A0}' || c == '\U{1680}' || '\U{2000}' <= c <= '\U{200A}' ||
      c == '\U{2028}' || c == '\U{2029}' || c == '\U{202F}' || c == '\U{205F}' ||
      c == '\U{3000}' || c == '\U{FEFF}'
  }

  /** The string has at least one character that `trim` keeps. */
  predicate HasVisible(s: string)
  {
    exists i :: 0 <= i < |s| && !IsWhitespace(s[i])
  }

  /** Removes the leading whitespace: the result is the longest suffix of `s`
      that does not start with whitespace, and everything cut off is whitespace. */
  function TrimStart(s: string): (r: string)
    ensures |r| <= |s| && r == s[|s| - |r|..]
    ensures forall i :: 0 <= i < |s| - |r| ==> IsWhitespace(s[i])
    ensures r != [] ==> !IsWhitespace(r[0])
  {
    if s != [] && IsWhitespace(s[0]) then TrimStart(s[1..]) else s
  }

  /** Removes the trailing whitespace: the result is the longest prefix of `s`
      that does not end with whitespace, and everything cut off is whitespace. */
  function TrimEnd(s: string): (r: string)
    ensures |r| <= |s| && r == s[..|r|]
    ensures forall i :: |r| <= i < |s| ==> IsWhitespace(s[i])
    ensures r != [] ==> !IsWhitespace(r[|r| - 1])
  {
    if s != [] && IsWhitespace(s[|s| - 1]) then TrimEnd(s[..|s| - 1]) else s
  }

  /** `String.prototype.trim`: whitespace removed from both ends. The result
      is the slice of `s` that starts after a blank prefix and leaves a blank
      remainder, and it neither starts nor ends with whitespace. */
  function Trim(s: string): (r: string)
    ensures exists k ::
      0 <= k <= |s| - |r| && r == s[k..][..|r|] && !HasVisible(s[..k]) && !HasVisible(s[k..][|r|..])
    ensures r != [] ==> !IsWhitespace(r[0]) && !IsWhitespace(r[|r| - 1])
  {
    var t := TrimStart(s);
    var k := |s| - |t|;
    assert t == s[k..];
    assert !HasVisible(s[..k]) by {
      assert forall i :: 0 <= i < k ==> s[..k][i] == s[i];
    }
    TrimEnd(t)
  }

  /** Trimming leaves nothing exactly when every character is whitespace. */
  lemma TrimEmptyIffBlank(s: string)
    ensures Trim(s) == [] <==> !HasVisible(s)
  {
    var t := TrimStart(s);
    if t != [] {
      // the first character kept by TrimStart is visible, and TrimEnd keeps it
      assert !IsWhitespace(s[|s| - |t|]);
      assert TrimEnd(t) != [];
    }
  }

  /** The length JavaScript reports: characters outside the Basic Multilingual
      Plane are stored as a surrogate pair and count twice. */
  function Utf16Length(s: string): (n: nat)
    ensures |s| <= n <= 2 * |s|
  {
    if s == [] then 0
    else (if s[0] as int > 0xFFFF then 2 else 1) + Utf16Length(s[1..])
  }

  /** On text made of Basic Multilingual Plane characters (all ASCII text, in
      particular) the JavaScript length is the number of characters. */
  lemma {:induction false} Utf16LengthOfBmp(s: string)
    requires forall i :: 0 <= i < |s| ==> s[i] as int <= 0xFFFF
    ensures Utf16Length(s) == |s|
  {
    if s != [] {
      Utf16LengthOfBmp(s[1..]);
    }
  }

  /** A string of decimal digits. */
  predicate IsDigits(s: string)
  {
    forall i :: 0 <= i < |s| ==> '0' <= s[i] <= '9'
  }

  function DigitChar(d: nat): (c: char)
    requires d < 10
    ensures '0' <= c <= '9' && c as int - '0' as int == d
  {
    (d + '0' as int) as char
  }

  /** The decimal text of a natural number, without leading zeros. */
  function NatToText(n: nat): (r: string)
    ensures r != [] && IsDigits(r)
    ensures r[0] == '0' ==> n == 0
    decreases n
  {
    if n < 10 then [DigitChar(n)] else NatToText(n / 10) + [DigitChar(n % 10)]
  }

  /** The number a string of decimal digits denotes. */
  function DigitsValue(s: string): (r: nat)
    requires IsDigits(s)
  {
    if s == [] then 0 else 10 * DigitsValue(s[..|s| - 1]) + (s[|s| - 1] as int - '0' as int)
  }

  /** Reading back the decimal text gives the number. */
  lemma {:induction false} NatToTextRoundTrip(n: nat)
    ensures DigitsValue(NatToText(n)) == n
  {
    if n >= 10 {
      var r := NatToText(n);
      assert r[..|r| - 1] == NatToText(n / 10);
      NatToTextRoundTrip(n / 10);
    }
  }

  /** `Number.prototype.toString` on an integer: an optional minus sign
      followed by the decimal digits of the magnitude. It never starts with
      whitespace, so it never trims to nothing. */
  function IntToText(i: int): (r: string)
    ensures r != [] && !IsWhitespace(r[0])
    ensures i < 0 <==> r[0] == '-'
    ensures i < 0 ==> IsDigits(r[1..]) && DigitsValue(r[1..]) == -i
    ensures i >= 0 ==> IsDigits(r) && DigitsValue(r) == i
  {
    if i < 0 then
      NatToTextRoundTrip(-i);
      assert ("-" + NatToText(-i))[1..] == NatToText(-i);
      "-" + NatToText(-i)
    else
      NatToTextRoundTrip(i);
      NatToText(i)
  }
}
