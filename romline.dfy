/** One line of a `.hack` ROM file, as the loop body of `computer_loadrom`
 *  reads it (hackcpu.c:278-286).
 *
 *  The line is cut at the first carriage return or line feed (or at the end
 *  of the C string), converted by `strtoul(line, &err, 2)`, rejected when
 *  `strtoul` stopped before the end, and otherwise masked to 16 bits.
 *  `strtoul` is modelled as the C library specifies it for base 2: leading
 *  white space, an optional sign, the longest run of binary digits,
 *  negation modulo 2^64, and saturation at `ULONG_MAX` (64-bit `unsigned
 *  long`) when the digits overflow.
 */
module HackRomLine {
  import opened HackWord

  /** What the loop does with a line: store an instruction, or stop the
   *  program with an error that shows the text from `err` on. */
  datatype LineParse = Instruction(word: Word) | Invalid(rest: string)

  /** A character at which the line ends: CR and LF (the `strcspn` set) and
   *  NUL, which ends every C string. */
  predicate IsLineEnd(ch: char)
  {
    ch == '\r' || ch == '\n' || ch == '\0'
  }

  /** `isspace` in the C locale: space, tab, LF, VT, FF and CR. */
  predicate IsCSpace(ch: char)
  {
    ch == ' ' || '\t' <= ch <= '\r'
  }

  predicate IsBinaryDigit(ch: char)
  {
    ch == '0' || ch == '1'
  }

  /** `line[strcspn(line, "\r\n")] = '\0'`: the longest prefix without a
   *  line end. */
  function CutAtNewline(line: string): (cut: string)
    ensures cut <= line
    ensures forall i :: 0 <= i < |cut| ==> !IsLineEnd(cut[i])
    ensures |cut| < |line| ==> IsLineEnd(line[|cut|])
  {
    if line == [] || IsLineEnd(line[0]) then [] else [line[0]] + CutAtNewline(line[1..])
  }

  /** The number of leading white-space characters. */
  function LeadingSpaces(s: string): (n: nat)
    ensures n <= |s|
    ensures forall i :: 0 <= i < n ==> IsCSpace(s[i])
    ensures n < |s| ==> !IsCSpace(s[n])
  {
    if s == [] || !IsCSpace(s[0]) then 0 else 1 + LeadingSpaces(s[1..])
  }

  /** The number of leading binary digits. */
  function LeadingDigits(s: string): (n: nat)
    ensures n <= |s|
    ensures forall i :: 0 <= i < n ==> IsBinaryDigit(s[i])
    ensures n < |s| ==> !IsBinaryDigit(s[n])
  {
    if s == [] || !IsBinaryDigit(s[0]) then 0 else 1 + LeadingDigits(s[1..])
  }

  /** The number a string of binary digits denotes, most significant first. */
  function BinValue(digits: string): (v: nat)
    requires forall i :: 0 <= i < |digits| ==> IsBinaryDigit(digits[i])
    ensures v < Pow2(|digits|)
  {
    if digits == [] then 0
    else 2 * BinValue(digits[..|digits| - 1]) + (if digits[|digits| - 1] == '1' then 1 else 0)
  }

  /** What `strtoul` returns, and where `err` points (an index into the line). */
  datatype Conversion = Conversion(value: U64, end: nat)

  /** `strtoul(s, &err, 2)`.  Without any digit nothing is converted and
   *  `err` is the start of the string. */
  function StrtoulBase2(s: string): (c: Conversion)
    ensures c.end <= |s|
  {
    var p := LeadingSpaces(s);
    var signed := p < |s| && (s[p] == '+' || s[p] == '-');
    var q := if signed then p + 1 else p;
    var k := LeadingDigits(s[q..]);
    if k == 0 then Conversion(0, 0)
    else
      var v := BinValue(s[q..q + k]);
      var value := if v >= 0x1_0000_0000_0000_0000 then 0x1_0000_0000_0000_0000 - 1
                   else if signed && s[p] == '-' then (0x1_0000_0000_0000_0000 - v) % 0x1_0000_0000_0000_0000
                   else v;
      Conversion(value, q + k)
  }

  /** The loop body of `computer_loadrom` for one line.  A rejected line
   *  carries the text `strtoul` could not read: never empty, and a tail of
   *  the cut line. */
  function ParseRomLine(line: string): (r: LineParse)
    ensures r.Invalid? ==> var cut := CutAtNewline(line);
      r.rest != [] && |r.rest| <= |cut| && r.rest == cut[|cut| - |r.rest|..]
  {
    var cut := CutAtNewline(line);
    var c := StrtoulBase2(cut);
    if c.end < |cut| then Invalid(cut[c.end..]) else Instruction(Mask16(c.value))
  }

  /** The `n`-digit binary numeral of `w` (of `w` modulo 2^n when `w` does
   *  not fit), most significant digit first, as the Hack assembler writes
   *  instructions (with n = 16). */
  function Binary(w: int, n: nat): (s: string)
    ensures |s| == n
    ensures forall i :: 0 <= i < n ==> IsBinaryDigit(s[i])
    decreases n
  {
    if n == 0 then [] else Binary(w / 2, n - 1) + [if w % 2 == 1 then '1' else '0']
  }

  /** Reading a numeral back gives the number it was written from. */
  lemma {:induction false} BinValueOfBinary(w: nat, n: nat)
    requires w < Pow2(n)
    ensures BinValue(Binary(w, n)) == w
  {
    if n > 0 {
      var s := Binary(w, n);
      assert s[..n - 1] == Binary(w / 2, n - 1);
      BinValueOfBinary(w / 2, n - 1);
    }
  }

  lemma Pow2Of64()
    ensures Pow2(64) == 0x1_0000_0000_0000_0000
  {
    hide Pow2;
    Pow2Widths();
    Pow2Add(16, 16);
    Pow2Add(32, 32);
  }

  /** A line of binary digits with nothing else is the low 16 bits of its
   *  value, as long as that value fits an `unsigned long`. */
  lemma DigitsKeepLow16Bits(digits: string, eol: string)
    requires 0 < |digits| <= 64
    requires forall i :: 0 <= i < |digits| ==> IsBinaryDigit(digits[i])
    requires eol == "" || eol == "\n" || eol == "\r\n"
    ensures ParseRomLine(digits + eol) == Instruction(BinValue(digits) % 0x1_0000)
  {
    CutBeforeLineEnd(digits, eol);
    StrtoulDigits(digits);
  }

  /** `strtoul` reads a string of at most 64 binary digits whole. */
  lemma StrtoulDigits(digits: string)
    requires 0 < |digits| <= 64
    requires forall i :: 0 <= i < |digits| ==> IsBinaryDigit(digits[i])
    ensures StrtoulBase2(digits).value == BinValue(digits) && StrtoulBase2(digits).end == |digits|
  {
    hide BinValue, LeadingDigits, Pow2;
    var n := |digits|;
    assert !IsCSpace(digits[0]) && digits[0] != '+' && digits[0] != '-';
    assert LeadingSpaces(digits) == 0;
    assert digits[0..] == digits;
    DigitsRun(digits);
    assert digits[0..n] == digits;
    DigitsFit(digits);
  }

  /** At most 64 binary digits fit an `unsigned long`. */
  lemma DigitsFit(digits: string)
    requires |digits| <= 64
    requires forall i :: 0 <= i < |digits| ==> IsBinaryDigit(digits[i])
    ensures BinValue(digits) < 0x1_0000_0000_0000_0000
  {
    hide BinValue, Pow2;
    Pow2Of64();
    Pow2Monotone(|digits|, 64);
  }

  /** Cutting a line at its end of line leaves the text before it. */
  lemma {:induction false} CutBeforeLineEnd(text: string, eol: string)
    requires forall i :: 0 <= i < |text| ==> !IsLineEnd(text[i])
    requires eol == "" || eol == "\n" || eol == "\r\n"
    ensures CutAtNewline(text + eol) == text
  {
    if text != [] {
      assert (text + eol)[1..] == text[1..] + eol;
      CutBeforeLineEnd(text[1..], eol);
    }
  }

  lemma {:induction false} DigitsRun(digits: string)
    requires forall i :: 0 <= i < |digits| ==> IsBinaryDigit(digits[i])
    ensures LeadingDigits(digits) == |digits|
  {
    if digits != [] {
      DigitsRun(digits[1..]);
    }
  }

  /** The run of leading digits stops at the first character that is not
   *  one. */
  lemma {:induction false} DigitsRunStops(digits: string, rest: string)
    requires forall i :: 0 <= i < |digits| ==> IsBinaryDigit(digits[i])
    requires rest != [] && !IsBinaryDigit(rest[0])
    ensures LeadingDigits(digits + rest) == |digits|
  {
    if digits != [] {
      assert (digits + rest)[1..] == digits[1..] + rest;
      DigitsRunStops(digits[1..], rest);
    } else {
      assert digits + rest == rest;
    }
  }

  lemma {:induction false} Pow2Monotone(m: nat, n: nat)
    requires m <= n
    ensures Pow2(m) <= Pow2(n)
    decreases n
  {
    if m < n {
      Pow2Monotone(m, n - 1);
    }
  }

  /** Round trip: the line the assembler writes for a word, with or without
   *  its line ending, loads that word. */
  lemma AssembledLineLoads(w: Word, eol: string)
    requires eol == "" || eol == "\n" || eol == "\r\n"
    ensures ParseRomLine(Binary(w, 16) + eol) == Instruction(w)
  {
    assert w % 0x1_0000 == w;
    Pow2Widths();
    BinValueOfBinary(w, 16);
    DigitsKeepLow16Bits(Binary(w, 16), eol);
  }

  /** An empty line loads the instruction 0 rather than being rejected. */
  lemma EmptyLineLoadsZero(eol: string)
    requires eol == "" || eol == "\n" || eol == "\r\n"
    ensures ParseRomLine(eol) == Instruction(0)
  {
    assert CutAtNewline(eol) == [];
    assert LeadingDigits([]) == 0;
    assert StrtoulBase2([]) == Conversion(0, 0);
  }

  /** A line that holds anything other than white space but does not reach
   *  a binary digit after them and an optional sign is rejected whole. */
  lemma NoDigitsRejectsLine(line: string)
    requires var cut := CutAtNewline(line);
      var p := LeadingSpaces(cut);
      var q := if p < |cut| && (cut[p] == '+' || cut[p] == '-') then p + 1 else p;
      cut != [] && (q == |cut| || !IsBinaryDigit(cut[q]))
    ensures ParseRomLine(line) == Invalid(CutAtNewline(line))
  {
  }

  /** Text after the binary digits that is not a line end (a trailing
   *  blank, say) rejects the line, and the error shows that text. */
  lemma DigitsThenTextRejected(digits: string, rest: string, eol: string)
    requires |digits| > 0 && forall i :: 0 <= i < |digits| ==> IsBinaryDigit(digits[i])
    requires rest != [] && !IsBinaryDigit(rest[0])
    requires forall i :: 0 <= i < |rest| ==> !IsLineEnd(rest[i])
    requires eol == "" || eol == "\n" || eol == "\r\n"
    ensures ParseRomLine(digits + rest + eol) == Invalid(rest)
  {
    hide BinValue, Pow2;
    var text := digits + rest;
    forall i | 0 <= i < |text|
      ensures !IsLineEnd(text[i])
    {
      if i < |digits| {
        assert text[i] == digits[i];
      } else {
        assert text[i] == rest[i - |digits|];
      }
    }
    CutBeforeLineEnd(text, eol);
    assert !IsCSpace(text[0]) && text[0] != '+' && text[0] != '-';
    assert LeadingSpaces(text) == 0;
    assert text[0..] == text;
    DigitsRunStops(digits, rest);
    assert text[|digits|..] == rest;
  }
}
