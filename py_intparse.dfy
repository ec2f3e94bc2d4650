/** Python's `int(text, 2)`, which `Computer.loadrom` applies to both halves
 *  of each ROM line (python/hackcpu.py:92-93).
 *
 *  The accepted text is: white space, an optional `+` or `-`, an optional
 *  `0b`/`0B` prefix that may be followed by one underscore, binary digits
 *  with single underscores allowed between two digits, and white space.
 *  Anything else (an empty or blank text included) raises `ValueError`.
 *  White space is ASCII space, tab, LF, VT, FF and CR, plus the non-ASCII
 *  characters for which `str.isspace` holds; the ASCII separators
 *  U+001C-U+001F, although `str.isspace` accepts them, are not skipped.
 */
module PyIntLiteral {
  import opened HackWord
  import opened HackRomLine

  /** The value of `int(text, 2)`, or the `ValueError` it raises. */
  datatype IntParse = Number(value: int) | NotANumber

  /** A character `int()` skips around the number. */
  predicate IsPySpace(ch: char)
  {
    ch == ' ' || '\t' <= ch <= '\r' ||
    ch == '\U{85}' || ch == '\U{A0}' || ch == '\U{1680}' || '\U{2000}' <= ch <= '\U{200A}' ||
    ch == '\U{2028}' || ch == '\U{2029}' || ch == '\U{202F}' || ch == '\U{205F}' || ch == '\U{3000}'
  }

  /** The text without its leading white space. */
  function StripLeading(s: string): (t: string)
    ensures |t| <= |s| && t == s[|s| - |t|..]
    ensures forall i :: 0 <= i < |s| - |t| ==> IsPySpace(s[i])
    ensures t != [] ==> !IsPySpace(t[0])
  {
    if s != [] && IsPySpace(s[0]) then StripLeading(s[1..]) else s
  }

  /** The text without its trailing white space. */
  function StripTrailing(s: string): (t: string)
    ensures t <= s
    ensures forall i :: |t| <= i < |s| ==> IsPySpace(s[i])
    ensures t != [] ==> !IsPySpace(t[|t| - 1])
  {
    if s != [] && IsPySpace(s[|s| - 1]) then StripTrailing(s[..|s| - 1]) else s
  }

  predicate IsDigitOrUnderscore(ch: char)
  {
    IsBinaryDigit(ch) || ch == '_'
  }

  /** Binary digits, at least one, with single underscores between digits. */
  predicate Underscored(d: string)
  {
    |d| > 0 && IsBinaryDigit(d[0]) && IsBinaryDigit(d[|d| - 1]) &&
    (forall i :: 0 <= i < |d| ==> IsDigitOrUnderscore(d[i])) &&
    (forall i :: 0 <= i < |d| - 1 ==> d[i] == '_' ==> d[i + 1] != '_')
  }

  /** The digits of a numeral, underscores removed. */
  function DropUnderscores(d: string): (digits: string)
    requires forall i :: 0 <= i < |d| ==> IsDigitOrUnderscore(d[i])
    ensures |digits| <= |d|
    ensures forall i :: 0 <= i < |digits| ==> IsBinaryDigit(digits[i])
  {
    if d == [] then []
    else if d[|d| - 1] == '_' then DropUnderscores(d[..|d| - 1])
    else
      assert IsDigitOrUnderscore(d[|d| - 1]);
      DropUnderscores(d[..|d| - 1]) + [d[|d| - 1]]
  }

  /** A numeral without underscores is its own digits. */
  lemma {:induction false} DropNoUnderscores(d: string)
    requires forall i :: 0 <= i < |d| ==> IsBinaryDigit(d[i])
    ensures DropUnderscores(d) == d
  {
    if d != [] {
      var init := d[..|d| - 1];
      DropNoUnderscores(init);
      assert init + [d[|d| - 1]] == d;
    }
  }

  /** The text between the sign and the trailing white space, and whether
   *  the sign is a minus. */
  datatype SignedBody = SignedBody(negative: bool, body: string)

  function SplitSign(t: string): (r: SignedBody)
    ensures |r.body| <= |t|
  {
    if |t| > 0 && (t[0] == '+' || t[0] == '-') then SignedBody(t[0] == '-', t[1..]) else SignedBody(false, t)
  }

  /** The body without a `0b`/`0B` prefix and the one underscore that may
   *  follow it. */
  function Unprefix(body: string): (numeral: string)
    ensures |numeral| <= |body|
  {
    if |body| >= 2 && body[0] == '0' && (body[1] == 'b' || body[1] == 'B') then
      var rest := body[2..];
      if |rest| > 0 && rest[0] == '_' then rest[1..] else rest
    else body
  }

  /** `int(s, 2)`.  A number it returns has no more binary digits than the
   *  text has characters. */
  function PyIntBase2(s: string): (r: IntParse)
    ensures r.Number? ==> -(Pow2(|s|) as int) < r.value < Pow2(|s|)
  {
    var sign := SplitSign(StripTrailing(StripLeading(s)));
    var numeral := Unprefix(sign.body);
    if !Underscored(numeral) then NotANumber
    else
      var digits := DropUnderscores(numeral);
      Pow2Monotone(|digits|, |s|);
      var v: int := BinValue(digits);
      Number(if sign.negative then -v else v)
  }

  /** The value `int()` gives once the white space, the sign and the prefix
   *  are known to leave plain digits. */
  lemma PyIntOfParts(s: string, negative: bool, body: string, digits: string)
    requires |digits| > 0 && forall i :: 0 <= i < |digits| ==> IsBinaryDigit(digits[i])
    requires SplitSign(StripTrailing(StripLeading(s))) == SignedBody(negative, body)
    requires Unprefix(body) == digits
    ensures var v: int := BinValue(digits); PyIntBase2(s) == Number(if negative then -v else v)
  {
    hide StripLeading, StripTrailing, SplitSign, Unprefix;
    NoPrefix(digits);
    DropNoUnderscores(digits);
  }

  /** Plain binary digits followed by white space (a line's end, say) read
   *  as the number they denote. */
  lemma PyIntOfNumeral(digits: string, trailing: string)
    requires |digits| > 0 && forall i :: 0 <= i < |digits| ==> IsBinaryDigit(digits[i])
    requires forall i :: 0 <= i < |trailing| ==> IsPySpace(trailing[i])
    ensures PyIntBase2(digits + trailing) == Number(BinValue(digits))
  {
    hide PyIntBase2;
    var s := digits + trailing;
    assert !IsPySpace(s[0]);
    assert StripLeading(s) == s;
    StripSpaces(digits, trailing);
    assert SplitSign(digits) == SignedBody(false, digits);
    NoPrefix(digits);
    PyIntOfParts(s, false, digits, digits);
  }

  /** Stripping white space after digits leaves the digits. */
  lemma {:induction false} StripSpaces(digits: string, trailing: string)
    requires |digits| > 0 && forall i :: 0 <= i < |digits| ==> IsBinaryDigit(digits[i])
    requires forall i :: 0 <= i < |trailing| ==> IsPySpace(trailing[i])
    ensures StripTrailing(digits + trailing) == digits
  {
    if trailing == [] {
      assert digits + trailing == digits;
    } else {
      var last := |trailing| - 1;
      assert (digits + trailing)[..|digits + trailing| - 1] == digits + trailing[..last];
      StripSpaces(digits, trailing[..last]);
    }
  }

  /** Text that is empty or all white space (a blank line) is not a number. */
  lemma PyIntRejectsBlank(s: string)
    requires forall i :: 0 <= i < |s| ==> IsPySpace(s[i])
    ensures PyIntBase2(s) == NotANumber
  {
    assert StripLeading(s) == [];
  }

  /** A leading minus sign negates the number. */
  lemma PyIntNegative(digits: string)
    requires |digits| > 0 && forall i :: 0 <= i < |digits| ==> IsBinaryDigit(digits[i])
    ensures PyIntBase2("-" + digits) == Number(-(BinValue(digits) as int))
  {
    hide PyIntBase2, StripLeading, StripTrailing;
    var minus := "-" + digits;
    Unstripped(minus);
    assert minus[1..] == digits;
    assert SplitSign(minus) == SignedBody(true, digits);
    NoPrefix(digits);
    PyIntOfParts(minus, true, digits, digits);
  }

  /** A `0b` prefix changes nothing. */
  lemma PyIntPrefixed(digits: string)
    requires |digits| > 0 && forall i :: 0 <= i < |digits| ==> IsBinaryDigit(digits[i])
    ensures PyIntBase2("0b" + digits) == PyIntBase2(digits)
  {
    hide PyIntBase2, StripLeading, StripTrailing;
    var prefixed := "0b" + digits;
    Unstripped(prefixed);
    Unstripped(digits);
    assert prefixed[0] == '0' && prefixed[1] == 'b';
    assert SplitSign(prefixed) == SignedBody(false, prefixed);
    assert SplitSign(digits) == SignedBody(false, digits);
    assert prefixed[2..] == digits;
    assert Unprefix(prefixed) == digits;
    NoPrefix(digits);
    PyIntOfParts(prefixed, false, prefixed, digits);
    PyIntOfParts(digits, false, digits, digits);
  }

  /** Text that neither starts nor ends with white space is not stripped. */
  lemma Unstripped(s: string)
    requires s != [] && !IsPySpace(s[0]) && !IsPySpace(s[|s| - 1])
    ensures StripTrailing(StripLeading(s)) == s
  {
    assert StripLeading(s) == s;
  }

  /** Plain digits carry no prefix and form a numeral. */
  lemma NoPrefix(digits: string)
    requires |digits| > 0 && forall i :: 0 <= i < |digits| ==> IsBinaryDigit(digits[i])
    ensures Unprefix(digits) == digits && Underscored(digits)
  {
    if |digits| >= 2 {
      assert IsBinaryDigit(digits[1]);
    }
  }
}
