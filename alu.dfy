/** The ALU of hackcpu.c (`ALU`, hackcpu.c:108-131).
 *
 *  A pure function of two 16-bit operands and the comp code.  Its six
 *  control bits act in a fixed order: zero x, negate x, zero y, negate y,
 *  add or AND, negate the output.  Besides the result it reports whether
 *  the result is zero (`zr`) and whether its sign bit is set (`ng`).
 */
module HackAlu {
  import opened HackWord
  import opened HackIsa

  /** The six control bits of a comp code, from bit 5 down to bit 0. */
  datatype AluControls = AluControls(zx: bool, nx: bool, zy: bool, ny: bool, f: bool, no: bool)

  /** 1 for a set control bit, 0 for a clear one. */
  function BitValue(b: bool): int
  {
    if b then 1 else 0
  }

  /** The six control bits read from bits 5..0 of a comp code. */
  function Controls(comp: int): AluControls
  {
    AluControls(HasBit(comp, 0x20), HasBit(comp, 0x10), HasBit(comp, 0x08),
                HasBit(comp, 0x04), HasBit(comp, 0x02), HasBit(comp, 0x01))
  }

  /** The control bits hold all of the comp code's low six bits:
   *  reassembling them at their weights gives `comp % 64` back, so no two
   *  codes that differ there share their controls. */
  lemma ControlsReassemble(comp: int)
    ensures var ctl := Controls(comp);
      comp % 64 == 32 * BitValue(ctl.zx) + 16 * BitValue(ctl.nx) + 8 * BitValue(ctl.zy)
                 + 4 * BitValue(ctl.ny) + 2 * BitValue(ctl.f) + BitValue(ctl.no)
  {
    LowSixBits(comp);
    DigitOfBit(comp, 0x20);
    DigitOfBit(comp, 0x10);
    DigitOfBit(comp, 0x08);
    DigitOfBit(comp, 0x04);
    DigitOfBit(comp, 0x02);
    DigitOfBit(comp, 0x01);
  }

  /** A set bit counts 1 and a clear one 0: the binary digit at `mask`. */
  lemma DigitOfBit(n: int, mask: int)
    requires mask > 0
    ensures BitValue(HasBit(n, mask)) == n / mask % 2
  {
  }

  /** `n % 64` is the sum of bits 5..0 of `n`, each at its own weight. */
  lemma LowSixBits(n: int)
    ensures n % 64 == 32 * (n / 32 % 2) + 16 * (n / 16 % 2) + 8 * (n / 8 % 2)
                    + 4 * (n / 4 % 2) + 2 * (n / 2 % 2) + n % 2
  {
    var q, b5, b4, b3, b2, b1, b0 := SixBits(n);
    var r1 := b0;
    var r2 := 2 * b1 + r1;
    var r3 := 4 * b2 + r2;
    var r4 := 8 * b3 + r3;
    var r5 := 16 * b4 + r4;
    var r6 := 32 * b5 + r5;
    ModUnique(n, 64, q, r6);
    BitAt(n, 32, q, b5, r5);
    BitAt(n, 16, 2 * q + b5, b4, r4);
    BitAt(n, 8, 4 * q + 2 * b5 + b4, b3, r3);
    BitAt(n, 4, 8 * q + 4 * b5 + 2 * b4 + b3, b2, r2);
    BitAt(n, 2, 16 * q + 8 * b5 + 4 * b4 + 2 * b3 + b2, b1, r1);
    BitAt(n, 1, 32 * q + 16 * b5 + 8 * b4 + 4 * b3 + 2 * b2 + b1, b0, 0);
  }

  /** Some split of `n` into a multiple of 64 and six binary digits. */
  lemma SixBits(n: int) returns (q: int, b5: int, b4: int, b3: int, b2: int, b1: int, b0: int)
    ensures n == 64 * q + 32 * b5 + 16 * b4 + 8 * b3 + 4 * b2 + 2 * b1 + b0
    ensures 0 <= b5 < 2 && 0 <= b4 < 2 && 0 <= b3 < 2 && 0 <= b2 < 2 && 0 <= b1 < 2 && 0 <= b0 < 2
  {
    q := n / 64;
    var r := n % 64;
    b5 := r / 32;
    var r5 := r % 32;
    b4 := r5 / 16;
    var r4 := r5 % 16;
    b3 := r4 / 8;
    var r3 := r4 % 8;
    b2 := r3 / 4;
    var r2 := r3 % 4;
    b1, b0 := r2 / 2, r2 % 2;
  }

  /** If `n` is `d * (2 * t + b) + rest` with `rest < d`, the bit of `n` at
   *  weight `d` is `b`. */
  lemma BitAt(n: int, d: int, t: int, b: int, rest: int)
    requires d > 0 && 0 <= rest < d && 0 <= b < 2 && n == d * (2 * t + b) + rest
    ensures n / d % 2 == b
  {
    ModUnique(n, d, 2 * t + b, rest);
    ModUnique(2 * t + b, 2, t, b);
  }

  /** An operand after its zero bit and then its negate bit. */
  function Preset(v: Word, zero: bool, negate: bool): Word
  {
    var v1 := if zero then 0 else v;
    if negate then Complement16(v1) else v1
  }

  /** The ALU output for decoded control bits. */
  function AluOut(x: Word, y: Word, ctl: AluControls): Word
  {
    var x2 := Preset(x, ctl.zx, ctl.nx);
    var y2 := Preset(y, ctl.zy, ctl.ny);
    var combined := if ctl.f then Wrap16(x2 + y2) else And16(x2, y2);
    if ctl.no then Complement16(combined) else combined
  }

  datatype AluResult = AluResult(out: Word, zr: bool, ng: bool)

  /** `ALU(x, y, comp, &out, &zr, &ng)`.  Every intermediate is a `uint16_t`,
   *  so `~` and `+` keep only their low 16 bits. */
  function Alu(x: Word, y: Word, comp: Word): (r: AluResult)
    ensures r.zr <==> r.out == 0
    ensures r.ng <==> r.out >= 0x8000
    ensures r.ng <==> Signed(r.out) < 0
  {
    var out := AluOut(x, y, Controls(comp));
    SignBit(out);
    AluResult(out, out == 0, HasBit(out, 0x8000))
  }

  /** The control bits the comp table assigns to each computation. */
  lemma TableControls(c: Computation)
    ensures var ctl := Controls(CompCode(c));
      match c
      case Zero => ctl == AluControls(true, false, true, false, true, false)
      case One => ctl == AluControls(true, true, true, true, true, true)
      case MinusOne => ctl == AluControls(true, true, true, false, true, false)
      case X => ctl == AluControls(false, false, true, true, false, false)
      case Y => ctl == AluControls(true, true, false, false, false, false)
      case NotX => ctl == AluControls(false, false, true, true, false, true)
      case NotY => ctl == AluControls(true, true, false, false, false, true)
      case NegX => ctl == AluControls(false, false, true, true, true, true)
      case NegY => ctl == AluControls(true, true, false, false, true, true)
      case XPlus1 => ctl == AluControls(false, true, true, true, true, true)
      case YPlus1 => ctl == AluControls(true, true, false, true, true, true)
      case XMinus1 => ctl == AluControls(false, false, true, true, true, false)
      case YMinus1 => ctl == AluControls(true, true, false, false, true, false)
      case XPlusY => ctl == AluControls(false, false, false, false, true, false)
      case XMinusY => ctl == AluControls(false, true, false, false, true, true)
      case YMinusX => ctl == AluControls(false, false, false, true, true, true)
      case XAndY => ctl == AluControls(false, false, false, false, false, false)
      case XOrY => ctl == AluControls(false, true, false, true, false, true)
  {
  }

  /** The ALU computes every entry of the Hack comp table.  Several entries
   *  pin down the order of the control bits: `Y` (0x30) and `One` (0x3F)
   *  need zeroing before negating, and `NegX`, `XMinusY` and `XOrY` need
   *  the output negation after the add or AND. */
  lemma AluImplementsCompTable(c: Computation, x: Word, y: Word)
    ensures Alu(x, y, CompCode(c)).out == Meaning(c, x, y)
  {
    if c.Zero? || c.One? || c.MinusOne? {
      ConstantEntries(c, x, y);
    } else if c.X? || c.Y? || c.NotX? || c.NotY? {
      OperandEntries(c, x, y);
    } else if c.NegX? || c.XPlus1? || c.XMinus1? {
      NegationEntriesX(c, x, y);
    } else if c.NegY? || c.YPlus1? || c.YMinus1? {
      NegationEntriesY(c, x, y);
    } else {
      BinaryEntries(c, x, y);
    }
  }

  /** The comp-table entries for the constants 0, 1 and -1. */
  lemma ConstantEntries(c: Computation, x: Word, y: Word)
    requires c.Zero? || c.One? || c.MinusOne?
    ensures Alu(x, y, CompCode(c)).out == Meaning(c, x, y)
  {
    TableControls(c);
  }

  /** The comp-table entries for x, y and their complements. */
  lemma OperandEntries(c: Computation, x: Word, y: Word)
    requires c.X? || c.Y? || c.NotX? || c.NotY?
    ensures Alu(x, y, CompCode(c)).out == Meaning(c, x, y)
  {
    TableControls(c);
    match c
    case X => And16Ones(x);
    case Y => And16Ones(y);
    case NotX => And16Ones(x);
    case NotY => And16Ones(y);
  }

  /** The comp-table entries for the negation, increment and decrement of x. */
  lemma NegationEntriesX(c: Computation, x: Word, y: Word)
    requires c.NegX? || c.XPlus1? || c.XMinus1?
    ensures Alu(x, y, CompCode(c)).out == Meaning(c, x, y)
  {
    TableControls(c);
    match c
    case NegX =>
      ComplementWrap(x + 0xFFFF);
      WrapShift(-(x as int), -1);
    case XPlus1 =>
      ComplementWrap(Complement16(x) + 0xFFFF);
      WrapShift(x + 1, -2);
    case XMinus1 =>
      WrapShift(x - 1, 1);
  }

  /** The comp-table entries for the negation, increment and decrement of y. */
  lemma NegationEntriesY(c: Computation, x: Word, y: Word)
    requires c.NegY? || c.YPlus1? || c.YMinus1?
    ensures Alu(x, y, CompCode(c)).out == Meaning(c, x, y)
  {
    TableControls(c);
    match c
    case NegY =>
      ComplementWrap(0xFFFF + y);
      WrapShift(-(y as int), -1);
    case YPlus1 =>
      ComplementWrap(0xFFFF + Complement16(y));
      WrapShift(y + 1, -2);
    case YMinus1 =>
      WrapShift(y - 1, 1);
  }

  /** The comp-table entries for sum, differences, AND and OR. */
  lemma BinaryEntries(c: Computation, x: Word, y: Word)
    requires c.XPlusY? || c.XMinusY? || c.YMinusX? || c.XAndY? || c.XOrY?
    ensures Alu(x, y, CompCode(c)).out == Meaning(c, x, y)
  {
    TableControls(c);
    match c
    case XPlusY =>
    case XMinusY =>
      ComplementWrap(Complement16(x) + y);
      WrapShift(x - y, -1);
    case YMinusX =>
      ComplementWrap(x + Complement16(y));
      WrapShift(y - x, -1);
    case XAndY =>
    case XOrY => DeMorganWord(x, y);
  }

  /** Setting the no bit complements the output and changes nothing else:
   *  the output negation is the last step. */
  lemma OutputNegationIsLast(x: Word, y: Word, comp: Word)
    requires !HasBit(comp, 0x01) && comp < 0xFFFF
    ensures Alu(x, y, comp + 1).out == Complement16(Alu(x, y, comp).out)
  {
    hide Controls, HasBit, Preset, Wrap16, And16, Complement16;
    SuccessorControls(comp);
  }

  /** Adding 1 to a comp code with bit 0 clear sets bit 0 and nothing else. */
  lemma SuccessorControls(comp: int)
    requires !HasBit(comp, 0x01)
    ensures !Controls(comp).no && Controls(comp + 1) == Controls(comp).(no := true)
  {
    DivIgnoresLowBit(comp);
  }

  /** Setting bit 0 of an even number leaves bits 1 to 5 alone. */
  lemma DivIgnoresLowBit(n: int)
    requires n % 2 == 0
    ensures (n + 1) / 0x20 == n / 0x20 && (n + 1) / 0x10 == n / 0x10 && (n + 1) / 0x08 == n / 0x08
    ensures (n + 1) / 0x04 == n / 0x04 && (n + 1) / 0x02 == n / 0x02
  {
    var h := n / 2;
    assert n == 2 * h;
    ModUnique(n, 0x20, h / 0x10, 2 * (h % 0x10));
    ModUnique(n + 1, 0x20, h / 0x10, 2 * (h % 0x10) + 1);
    ModUnique(n, 0x10, h / 0x08, 2 * (h % 0x08));
    ModUnique(n + 1, 0x10, h / 0x08, 2 * (h % 0x08) + 1);
    ModUnique(n, 0x08, h / 0x04, 2 * (h % 0x04));
    ModUnique(n + 1, 0x08, h / 0x04, 2 * (h % 0x04) + 1);
    ModUnique(n, 0x04, h / 0x02, 2 * (h % 0x02));
    ModUnique(n + 1, 0x04, h / 0x02, 2 * (h % 0x02) + 1);
    ModUnique(n + 1, 0x02, h, 1);
  }

  /** The complement of a wrapped value is the wrapped `-a - 1`. */
  lemma ComplementWrap(a: int)
    ensures Complement16(Wrap16(a)) == Wrap16(-a - 1)
  {
    ModUnique(-a - 1, 0x1_0000, -(a / 0x1_0000) - 1, 0xFFFF - a % 0x1_0000);
  }

  /** Wrapping ignores multiples of 2^16. */
  lemma WrapShift(a: int, k: int)
    ensures Wrap16(a + 0x1_0000 * k) == Wrap16(a)
  {
    ModUnique(a + 0x1_0000 * k, 0x1_0000, a / 0x1_0000 + k, a % 0x1_0000);
  }
}
