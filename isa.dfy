/** The Hack instruction format.
 *
 *  The field decoders are shared by the C and the Python CPU, which extract
 *  the same bit fields with the same masks.  The meaning the Hack machine
 *  language gives the comp and jump fields (its comp and jump tables) is the
 *  independent reference against which the bit-level ALU and jump logic are
 *  proved.
 */
module HackIsa {
  import opened HackWord

  /** `(instruction & 0x8000) == 0`: an A-instruction, which loads A. */
  predicate IsAInstruction(instruction: int)
  {
    !HasBit(instruction, 0x8000)
  }

  /** `instruction & (1 << 12)`: the a-bit, which selects M rather than A. */
  predicate ReadsMemory(instruction: int)
  {
    HasBit(instruction, 0x1000)
  }

  /** `(instruction & 0xfc0) >> 6`: the six comp bits. */
  function CompField(instruction: int): (comp: nat)
    ensures comp < 64
  {
    instruction / 0x40 % 0x40
  }

  /** `(instruction & 0x38) >> 3`: the dest bits, A D M from high to low. */
  function DestField(instruction: int): (dest: nat)
    ensures dest < 8
  {
    instruction / 0x8 % 0x8
  }

  /** `instruction & 0x7`: the jump bits, lt eq gt from high to low. */
  function JumpField(instruction: int): (jump: nat)
    ensures jump < 8
  {
    instruction % 0x8
  }

  /** A C-instruction as the Hack assembler writes it: `111a cccc ccdd djjj`. */
  function EncodeC(readsMemory: bool, comp: nat, dest: nat, jump: nat): (instruction: Word)
    requires comp < 64 && dest < 8 && jump < 8
  {
    0xE000 + (if readsMemory then 0x1000 else 0) + comp * 0x40 + dest * 0x8 + jump
  }

  /** Decoding recovers every field the assembler encoded. */
  lemma DecodeEncodeC(readsMemory: bool, comp: nat, dest: nat, jump: nat)
    requires comp < 64 && dest < 8 && jump < 8
    ensures var i := EncodeC(readsMemory, comp, dest, jump);
      !IsAInstruction(i) && ReadsMemory(i) == readsMemory &&
      CompField(i) == comp && DestField(i) == dest && JumpField(i) == jump
  {
    var i := EncodeC(readsMemory, comp, dest, jump);
    var m := if readsMemory then 1 else 0;
    ModUnique(i, 0x8000, 1, 0x6000 + 0x1000 * m + comp * 0x40 + dest * 0x8 + jump);
    ModUnique(i, 0x1000, 0xE + m, comp * 0x40 + dest * 0x8 + jump);
    ModUnique(i, 0x40, 0x380 + 0x40 * m + comp, dest * 0x8 + jump);
    ModUnique(0x380 + 0x40 * m + comp, 0x40, 0xE + m, comp);
    ModUnique(i, 0x8, 0x1C00 + 0x200 * m + comp * 0x8 + dest, jump);
    ModUnique(0x1C00 + 0x200 * m + comp * 0x8 + dest, 0x8, 0x380 + 0x40 * m + comp, dest);
  }

  /** A word is an A-instruction exactly when it is a literal below 0x8000,
   *  that is, when bit 15 is clear. */
  lemma DecodeLiteral(w: Word)
    ensures IsAInstruction(w) <==> w < 0x8000
  {
  }

  /** A word read as a two's-complement 16-bit number. */
  function Signed(w: Word): (v: int)
    ensures -0x8000 <= v < 0x8000
    ensures Wrap16(v) == w
  {
    if w < 0x8000 then w else w - 0x1_0000
  }

  /** The Hack machine-language meaning of the jump field: the condition on
   *  the ALU output, read as a signed number, under which the C-instruction
   *  jumps. */
  predicate JumpMeaning(jump: nat, out: Word)
    requires jump < 8
  {
    match jump
    case 0 => false                  // no jump
    case 1 => Signed(out) > 0        // JGT
    case 2 => Signed(out) == 0       // JEQ
    case 3 => Signed(out) >= 0       // JGE
    case 4 => Signed(out) < 0        // JLT
    case 5 => Signed(out) != 0       // JNE
    case 6 => Signed(out) <= 0       // JLE
    case _ => true                   // JMP
  }

  /** The eighteen computations of the Hack machine-language comp table, with
   *  x the D register and y the A register or M. */
  datatype Computation =
    | Zero | One | MinusOne
    | X | Y | NotX | NotY | NegX | NegY
    | XPlus1 | YPlus1 | XMinus1 | YMinus1
    | XPlusY | XMinusY | YMinusX | XAndY | XOrY

  /** The six comp bits the table assigns to each computation. */
  function CompCode(c: Computation): (code: nat)
    ensures code < 64
  {
    match c
    case Zero => 0x2A
    case One => 0x3F
    case MinusOne => 0x3A
    case X => 0x0C
    case Y => 0x30
    case NotX => 0x0D
    case NotY => 0x31
    case NegX => 0x0F
    case NegY => 0x33
    case XPlus1 => 0x1F
    case YPlus1 => 0x37
    case XMinus1 => 0x0E
    case YMinus1 => 0x32
    case XPlusY => 0x02
    case XMinusY => 0x13
    case YMinusX => 0x07
    case XAndY => 0x00
    case XOrY => 0x15
  }

  /** What each computation means, in 16-bit two's-complement arithmetic. */
  function Meaning(c: Computation, x: Word, y: Word): Word
  {
    match c
    case Zero => 0
    case One => 1
    case MinusOne => Wrap16(-1)
    case X => x
    case Y => y
    case NotX => Complement16(x)
    case NotY => Complement16(y)
    case NegX => Wrap16(-(x as int))
    case NegY => Wrap16(-(y as int))
    case XPlus1 => Wrap16(x + 1)
    case YPlus1 => Wrap16(y + 1)
    case XMinus1 => Wrap16(x - 1)
    case YMinus1 => Wrap16(y - 1)
    case XPlusY => Wrap16(x + y)
    case XMinusY => Wrap16(x - y)
    case YMinusX => Wrap16(y - x)
    case XAndY => And16(x, y)
    case XOrY => Or16(x, y)
  }
}
