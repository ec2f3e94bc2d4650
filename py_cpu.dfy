/** The CPU and ALU of the Python port (python/hackcpu.py:3-70).
 *
 *  Python integers are unbounded, so the port masks with `& 0xffff` where
 *  the C program relies on `uint16_t` truncation.  Registers are therefore
 *  plain integers here, and every mask is written out: `v & 0xffff` is
 *  `Mask16(v)`, and `~v` is `-v - 1`, as for every Python `int`.
 */
module PyHackCpu {
  import opened HackWord
  import opened HackIsa

  /** The tuple `(out, zr, ng)` that `ALU` returns; `ng` is the integer
   *  `out & 0x8000`, not a boolean. */
  datatype PyAluResult = PyAluResult(out: int, zr: bool, ng: int)

  /** An ALU operand after its two `if`s: `v = 0` when `zero`, then
   *  `v = ~v & 0xffff` when `negate`. */
  function PyOperand(v: int, zero: bool, negate: bool): int
  {
    var v1 := if zero then 0 else v;
    if negate then Mask16(-v1 - 1) else v1
  }

  /** The output of `ALU` once the six bits of `comp` are decoded: zero and
   *  negate each operand, add or AND them, and negate the result. */
  function PyAluOut(x: int, y: int, zx: bool, nx: bool, zy: bool, ny: bool, f: bool, no: bool): int
  {
    var x2 := PyOperand(x, zx, nx);
    var y2 := PyOperand(y, zy, ny);
    var combined := if f then Mask16(x2 + y2) else BitAnd(x2, y2, 16);
    if no then Mask16(-combined - 1) else combined
  }

  /** `ALU(x, y, comp)`.  `x & y & 0xffff` is the low 16 bits of the
   *  two's-complement AND, `BitAnd(x, y, 16)`.  Whatever the inputs, the
   *  output is a 16-bit word, `zr` says whether it is 0 and `ng` is its
   *  sign bit in place. */
  function PyAlu(x: int, y: int, comp: int): (r: PyAluResult)
    ensures 0 <= r.out < 0x1_0000
    ensures r.zr <==> r.out == 0
    ensures r.ng == 0 || r.ng == 0x8000
    ensures r.ng != 0 <==> r.out >= 0x8000
  {
    hide Pow2, BitAnd;
    Pow2Widths();
    var out := PyAluOut(x, y, HasBit(comp, 0x20), HasBit(comp, 0x10), HasBit(comp, 0x08),
                        HasBit(comp, 0x04), HasBit(comp, 0x02), HasBit(comp, 0x01));
    assert 0 <= out < 0x1_0000;
    SignBit(out);
    PyAluResult(out, out == 0, if HasBit(out, 0x8000) then 0x8000 else 0)
  }

  /** The registers of a `CPU` object. */
  datatype PyRegisters = PyRegisters(A: int, D: int, PC: int)

  /** The tuple `(ALUout, writeM, oldA)` that `tick` returns. */
  datatype PyTickOutput = PyTickOutput(aluOut: int, writeM: bool, oldA: int)

  datatype PyTickResult = PyTickResult(next: PyRegisters, output: PyTickOutput)

  /** The jump test of `tick`, on Python truth values: `ng` is truthy when
   *  non-zero, and `ng == False` holds when it is 0. */
  predicate PyJumpTaken(jump: int, zr: bool, ng: int)
  {
    (HasBit(jump, 0x4) && ng != 0) || (HasBit(jump, 0x2) && zr) || (HasBit(jump, 0x1) && !zr && ng == 0)
  }

  /** `CPU.tick(instruction, inM, reset)`. */
  function PyCpuTick(r: PyRegisters, instruction: int, inM: int, reset: bool): (t: PyTickResult)
  {
    var aInstr := IsAInstruction(instruction);
    var dst := DestField(instruction);
    var alu := PyAlu(r.D, if ReadsMemory(instruction) then inM else r.A, CompField(instruction));
    var loadPC := !aInstr && PyJumpTaken(JumpField(instruction), alu.zr, alu.ng);
    var a := if aInstr then instruction else if HasBit(dst, 0x4) then alu.out else r.A;
    var d := if !aInstr && HasBit(dst, 0x2) then alu.out else r.D;
    var pc := if reset then 0 else if loadPC then r.A else (r.PC + 1) % 65536;
    PyTickResult(PyRegisters(a, d, pc), PyTickOutput(alu.out, !aInstr && HasBit(dst, 0x1), r.A))
  }

  /** The jump test of `tick` on the flags `ALU` returns decides exactly the
   *  Hack jump condition on the output read as a signed number, although
   *  `ng` is an integer and compared with `False`. */
  lemma PyJumpMeansCondition(jump: nat, out: Word, zr: bool, ng: int)
    requires jump < 8
    requires zr <==> out == 0
    requires ng == 0 || ng == 0x8000
    requires ng != 0 <==> out >= 0x8000
    ensures PyJumpTaken(jump, zr, ng) <==> JumpMeaning(jump, out)
  {
    assert HasBit(jump, 0x4) <==> jump >= 4;
    assert HasBit(jump, 0x2) <==> jump % 4 >= 2;
    assert HasBit(jump, 0x1) <==> jump % 2 == 1;
  }

  /** The PC after a tick: 0 on reset, A as it was before the tick when a
   *  C-instruction's Hack jump condition holds on the ALU output, and
   *  otherwise PC + 1 modulo 65536; starting from a word, the PC stays a
   *  word.  The tick reports that old A, and a write only for a
   *  C-instruction with the M dest bit. */
  lemma PyTickPC(r: PyRegisters, instruction: int, inM: int, reset: bool)
    requires 0 <= r.A < 0x1_0000 && 0 <= r.PC < 0x1_0000
    ensures var t := PyCpuTick(r, instruction, inM, reset);
      var out := PyAlu(r.D, if ReadsMemory(instruction) then inM else r.A, CompField(instruction)).out;
      t.next.PC == (if reset then 0
                    else if !IsAInstruction(instruction) && JumpMeaning(JumpField(instruction), out) then r.A
                    else Wrap16(r.PC + 1)) &&
      0 <= t.next.PC < 0x1_0000 &&
      t.output.oldA == r.A &&
      t.output.writeM == (!IsAInstruction(instruction) && HasBit(DestField(instruction), 0x1))
  {
    hide PyAlu;
    var alu := PyAlu(r.D, if ReadsMemory(instruction) then inM else r.A, CompField(instruction));
    PyJumpMeansCondition(JumpField(instruction), alu.out, alu.zr, alu.ng);
  }

  /** An A-instruction loads A with the instruction and leaves D alone. */
  lemma PyAInstructionStep(r: PyRegisters, instruction: int, inM: int, reset: bool)
    requires IsAInstruction(instruction)
    ensures var t := PyCpuTick(r, instruction, inM, reset);
      t.next.A == instruction && t.next.D == r.D && !t.output.writeM
  {
  }

  /** A `CPU` object. */
  class PyCpu {
    var A: int
    var D: int
    var PC: int

    function State(): PyRegisters
      reads this
    {
      PyRegisters(A, D, PC)
    }

    /** `CPU.__init__`. */
    constructor Init()
      ensures State() == PyRegisters(0, 0, 0)
    {
      A, D, PC := 0, 0, 0;
    }

    /** `CPU.tick`. */
    method Tick(instruction: int, inM: int, reset: bool) returns (aluOut: int, writeM: bool, oldA: int)
      modifies this
      ensures State() == PyCpuTick(old(State()), instruction, inM, reset).next
      ensures PyTickOutput(aluOut, writeM, oldA) == PyCpuTick(old(State()), instruction, inM, reset).output
    {
      hide PyAlu;
      var aInstr := IsAInstruction(instruction);
      var cInstr := !aInstr;
      var jmp := JumpField(instruction);
      var dst := DestField(instruction);
      var comp := CompField(instruction);
      var loadD := cInstr && HasBit(dst, 0x2);
      writeM := cInstr && HasBit(dst, 0x1);
      var loadPC := false;

      var y := if ReadsMemory(instruction) then inM else A;
      var alu := PyAlu(D, y, comp);

      if cInstr {
        if PyJumpTaken(jmp, alu.zr, alu.ng) {
          loadPC := true;
        }
      }

      oldA := A;
      if aInstr {
        A := instruction;
      } else if HasBit(dst, 0x4) {
        A := alu.out;
      }

      if loadD {
        D := alu.out;
      }

      if reset {
        PC := 0;
      } else if loadPC {
        PC := oldA;
      } else {
        PC := (PC + 1) % 65536;
      }

      aluOut := alu.out;
    }

    /** `CPU.tock`. */
    method Tock() returns (pc: int, a: int)
      ensures pc == PC && a == A
    {
      return PC, A;
    }
  }
}
