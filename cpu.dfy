/** The Hack CPU of hackcpu.c: three 16-bit registers and a two-phase clock.
 *
 *  `cpu_tick` (hackcpu.c:33-79) is the rising edge: it decodes the
 *  instruction, runs the ALU, and commits A, D and PC, reporting the memory
 *  write the instruction asks for.  `cpu_tock` (hackcpu.c:90-94) is the
 *  falling edge: it exports PC and A, the addresses of the next fetches.
 *
 *  `CpuTick` is the value-level meaning of one tick; the class `Cpu` is the
 *  `CPU` struct of hackcpu.h:7-11, and its `Tick` method updates the fields
 *  in place as the C function does, proved against `CpuTick`.
 */
module HackCpu {
  import opened HackWord
  import opened HackIsa
  import opened HackAlu

  /** The three registers of the `CPU` struct. */
  datatype Registers = Registers(A: Word, D: Word, PC: Word)

  /** The out-parameters `addressM`, `outM` and `writeM` of `cpu_tick`. */
  datatype WriteRequest = WriteRequest(addressM: Word, outM: Word, writeM: bool)

  datatype TickResult = TickResult(next: Registers, request: WriteRequest)

  /** `(jmp & 0x4 && ng) || (jmp & 0x2 && zr) || (jmp & 0x1 && !zr && !ng)`. */
  predicate JumpTaken(jump: int, zr: bool, ng: bool)
  {
    (HasBit(jump, 0x4) && ng) || (HasBit(jump, 0x2) && zr) || (HasBit(jump, 0x1) && !zr && !ng)
  }

  /** One rising clock edge: `cpu_tick(cpu, instruction, inM, reset, ...)`. */
  function CpuTick(r: Registers, instruction: Word, inM: Word, reset: bool): (t: TickResult)
  {
    var aInstr := IsAInstruction(instruction);
    var dst := DestField(instruction);
    var alu := Alu(r.D, if ReadsMemory(instruction) then inM else r.A, CompField(instruction));
    var loadPC := !aInstr && JumpTaken(JumpField(instruction), alu.zr, alu.ng);
    var a := if aInstr then instruction else if HasBit(dst, 0x4) then alu.out else r.A;
    var d := if !aInstr && HasBit(dst, 0x2) then alu.out else r.D;
    var pc := if reset then 0 else if loadPC then r.A else Wrap16(r.PC + 1);
    TickResult(Registers(a, d, pc), WriteRequest(r.A, alu.out, !aInstr && HasBit(dst, 0x1)))
  }

  /** The ALU output of an instruction: D against A or M, under its comp bits. */
  function AluOutput(r: Registers, instruction: Word, inM: Word): Word
  {
    Alu(r.D, if ReadsMemory(instruction) then inM else r.A, CompField(instruction)).out
  }

  /** The flag test of `cpu_tick` decides exactly the Hack jump
   *  condition: the ALU output read as a signed number compared with 0. */
  lemma JumpTakenMeansCondition(jump: nat, out: Word)
    requires jump < 8
    ensures JumpTaken(jump, out == 0, out >= 0x8000) <==> JumpMeaning(jump, out)
  {
    assert HasBit(jump, 0x4) <==> jump >= 4;
    assert HasBit(jump, 0x2) <==> jump % 4 >= 2;
    assert HasBit(jump, 0x1) <==> jump % 2 == 1;
  }

  /** `@literal`, as the assembler emits it for a literal below 0x8000,
   *  loads A with the literal itself, leaves D alone, asks for no write,
   *  and moves on to the next instruction. */
  lemma AInstructionStep(r: Registers, literal: Word, inM: Word, reset: bool)
    requires literal < 0x8000
    ensures var t := CpuTick(r, literal, inM, reset);
      t.next == Registers(literal, r.D, if reset then 0 else Wrap16(r.PC + 1)) &&
      !t.request.writeM
  {
    DecodeLiteral(literal);
  }

  /** The next PC: 0 on reset, otherwise A as it was before the tick when a
   *  C-instruction's jump condition holds (even if the same instruction
   *  loads A), otherwise PC + 1 modulo 2^16. */
  lemma NextPC(r: Registers, instruction: Word, inM: Word, reset: bool)
    ensures var out := AluOutput(r, instruction, inM);
      CpuTick(r, instruction, inM, reset).next.PC ==
        if reset then 0
        else if !IsAInstruction(instruction) && JumpMeaning(JumpField(instruction), out) then r.A
        else Wrap16(r.PC + 1)
  {
    JumpTakenMeansCondition(JumpField(instruction), AluOutput(r, instruction, inM));
  }

  /** Reset overrides only the PC: A, D and the write request are what the
   *  same instruction produces without it. */
  lemma ResetOnlyForcesPC(r: Registers, instruction: Word, inM: Word)
    ensures var t, t' := CpuTick(r, instruction, inM, true), CpuTick(r, instruction, inM, false);
      t.next == t'.next.(PC := 0) && t.request == t'.request
  {
  }

  /** A C-instruction as the assembler encodes it does what the Hack machine
   *  language documents: the comp table's value goes to the dest registers
   *  and to outM, and the jump is decided by the signed jump condition. */
  lemma CInstructionStep(r: Registers, readsMemory: bool, c: Computation, dest: nat, jump: nat,
                         inM: Word, reset: bool)
    requires dest < 8 && jump < 8
    ensures var y := if readsMemory then inM else r.A;
      var v := Meaning(c, r.D, y);
      var t := CpuTick(r, EncodeC(readsMemory, CompCode(c), dest, jump), inM, reset);
      t.next.A == (if HasBit(dest, 0x4) then v else r.A) &&
      t.next.D == (if HasBit(dest, 0x2) then v else r.D) &&
      t.next.PC == (if reset then 0 else if JumpMeaning(jump, v) then r.A else Wrap16(r.PC + 1)) &&
      t.request == WriteRequest(r.A, v, HasBit(dest, 0x1))
  {
    var i := EncodeC(readsMemory, CompCode(c), dest, jump);
    DecodeEncodeC(readsMemory, CompCode(c), dest, jump);
    AluImplementsCompTable(c, r.D, if readsMemory then inM else r.A);
    NextPC(r, i, inM, reset);
  }

  /** The `CPU` struct, updated in place by `cpu_tick`. */
  class Cpu {
    var A: Word
    var D: Word
    var PC: Word

    function State(): Registers
      reads this
    {
      Registers(A, D, PC)
    }

    /** `cpu_init`: all three registers zero. */
    constructor Init()
      ensures State() == Registers(0, 0, 0)
    {
      A, D, PC := 0, 0, 0;
    }

    /** `cpu_tick`: the registers become the next state of `CpuTick`, and the
     *  out-parameters are its write request. */
    method Tick(instruction: Word, inM: Word, reset: bool) returns (addressM: Word, outM: Word, writeM: bool)
      modifies this
      ensures State() == CpuTick(old(State()), instruction, inM, reset).next
      ensures WriteRequest(addressM, outM, writeM) == CpuTick(old(State()), instruction, inM, reset).request
    {
      hide Alu;
      var aInstr := IsAInstruction(instruction);
      var cInstr := !aInstr;
      var jmp := JumpField(instruction);
      var dst := DestField(instruction);
      var comp := CompField(instruction);
      var loadD := cInstr && HasBit(dst, 0x2);
      var w := cInstr && HasBit(dst, 0x1);
      var loadPC := false;

      var y := if ReadsMemory(instruction) then inM else A;
      var alu := Alu(D, y, comp);

      if cInstr {
        if JumpTaken(jmp, alu.zr, alu.ng) {
          loadPC := true;
        }
      }

      var oldA := A;
      if aInstr {
        A := instruction;
      } else if HasBit(dst, 0x4) {
        A := alu.out;
      }

      if loadD {
        D := alu.out;
      }

      if reset {
        PC := 0;
      } else if loadPC {
        PC := oldA;
      } else {
        PC := Wrap16(PC + 1);
      }

      outM := alu.out;
      addressM := oldA;
      writeM := w;
    }

    /** `cpu_tock`: the PC and A for the next cycle's fetches. */
    method Tock() returns (pc: Word, addressM: Word)
      ensures pc == PC && addressM == A
    {
      pc := PC;
      addressM := A;
    }
  }
}
