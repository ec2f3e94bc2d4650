/** How the C emulator (hackcpu.c) and its Python port (python/hackcpu.py)
 *  relate.
 *
 *  The C `Computer` of hackmain.c has a ROM and a RAM of 32768 words; the
 *  Python `Computer` keeps the same words in two bytearrays of 65536 bytes,
 *  big-endian.  `Corresponds` relates two such states, and the lemmas show
 *  that the two programs compute the same ALU results, the same CPU steps
 *  and, as long as every address stays inside the memories, the same
 *  cycles and runs.  For ROM files they are shown to agree on lines of
 *  exactly 16 binary digits ending in nothing, LF or CR LF, as the Hack
 *  assembler writes them.  A few lines on which they are shown to part
 *  ways: a blank line, a trailing blank and a line of 15 digits; so do a
 *  zero or negative cycle limit.  Other malformed lines (a sign, leading
 *  blanks, more than 16 digits, underscores or a `0b` inside a half) are
 *  read differently by `strtoul` and `int` and are not related here.
 */
module HackAgreement {
  import opened HackWord
  import opened HackIsa
  import opened HackAlu
  import opened HackCpu
  import opened HackRomLine
  import opened HackComputer
  import opened PyHackCpu
  import opened PyIntLiteral
  import opened PyHackComputer

  /** Python's `~v & 0xffff` on a word is the C `uint16_t` complement. */
  lemma MaskComplement(v: Word)
    ensures Mask16(-(v as int) - 1) == Complement16(v)
  {
    ModUnique(-(v as int) - 1, 0x1_0000, -1, 0xFFFF - v);
  }

  /** On 16-bit operands the Python ALU computes the C ALU's output, the
   *  same zero flag, and a non-zero `ng` exactly when C's `ng` is set. */
  lemma PyAluAgrees(x: Word, y: Word, comp: Word)
    ensures var p, c := PyAlu(x, y, comp), Alu(x, y, comp);
      p.out == c.out && p.zr == c.zr && (p.ng != 0 <==> c.ng)
  {
    hide AluOut, PyAluOut, HasBit, Signed;
    PyStagesAgree(x, y, HasBit(comp, 0x20), HasBit(comp, 0x10), HasBit(comp, 0x08),
                  HasBit(comp, 0x04), HasBit(comp, 0x02), HasBit(comp, 0x01));
  }

  /** The stages of the two ALUs agree for every setting of the control
   *  bits. */
  lemma PyStagesAgree(x: Word, y: Word, zx: bool, nx: bool, zy: bool, ny: bool, f: bool, no: bool)
    ensures PyAluOut(x, y, zx, nx, zy, ny, f, no) == AluOut(x, y, AluControls(zx, nx, zy, ny, f, no))
  {
    hide PyAluOut, AluOut, Mask16, Wrap16, And16, BitAnd, Complement16, Preset, PyOperand, Pow2;
    var px, py := PyOperand(x, zx, nx), PyOperand(y, zy, ny);
    PyAluOutStages(x, y, zx, nx, zy, ny, f, no);
    var x2, y2 := Preset(x, zx, nx), Preset(y, zy, ny);
    AluOutStages(x, y, AluControls(zx, nx, zy, ny, f, no));
    PyOperandAgrees(x, zx, nx);
    PyOperandAgrees(y, zy, ny);
    PyCombineAgrees(px, py, x2, y2, f);
    var pc := if f then Mask16(px + py) else BitAnd(px, py, 16);
    var cc := if f then Wrap16(x2 as int + y2) else And16(x2, y2);
    PyNegateAgrees(pc, cc, no);
  }

  /** `PyAluOut` stage by stage. */
  lemma PyAluOutStages(x: int, y: int, zx: bool, nx: bool, zy: bool, ny: bool, f: bool, no: bool)
    ensures var px, py := PyOperand(x, zx, nx), PyOperand(y, zy, ny);
      var pc := if f then Mask16(px + py) else BitAnd(px, py, 16);
      PyAluOut(x, y, zx, nx, zy, ny, f, no) == if no then Mask16(-pc - 1) else pc
  {
    hide BitAnd, Mask16, PyOperand, Pow2;
  }

  /** `AluOut` stage by stage. */
  lemma AluOutStages(x: Word, y: Word, ctl: AluControls)
    ensures var x2, y2 := Preset(x, ctl.zx, ctl.nx), Preset(y, ctl.zy, ctl.ny);
      var cc := if ctl.f then Wrap16(x2 as int + y2) else And16(x2, y2);
      AluOut(x, y, ctl) == if ctl.no then Complement16(cc) else cc
  {
  }

  /** `(x + y) & 0xffff` and `x & y & 0xffff` on words are the C sum and
   *  AND stored in a `uint16_t`. */
  lemma PyCombineAgrees(px: int, py: int, x2: Word, y2: Word, f: bool)
    requires px == x2 && py == y2
    ensures (if f then Mask16(px + py) else BitAnd(px, py, 16)) ==
            (if f then Wrap16(x2 as int + y2) else And16(x2, y2))
  {
  }

  /** The final `out = ~out & 0xffff` on a word is the C complement. */
  lemma PyNegateAgrees(pc: int, cc: Word, no: bool)
    requires pc == cc
    ensures (if no then Mask16(-pc - 1) else pc) == (if no then Complement16(cc) else cc)
  {
    MaskComplement(cc);
  }

  /** Zeroing and negating an operand agree. */
  lemma PyOperandAgrees(v: Word, zero: bool, negate: bool)
    ensures PyOperand(v, zero, negate) == Preset(v, zero, negate)
  {
    MaskComplement(if zero then 0 else v);
  }

  /** The Python registers holding the C registers' values. */
  function Lift(r: Registers): PyRegisters
  {
    PyRegisters(r.A, r.D, r.PC)
  }

  /** `CPU.tick` does what `cpu_tick` does: the same next registers, and its
   *  `(ALUout, writeM, oldA)` is C's `(outM, writeM, addressM)`. */
  lemma PyCpuTickAgrees(r: Registers, instruction: Word, inM: Word, reset: bool)
    ensures var p, c := PyCpuTick(Lift(r), instruction, inM, reset), CpuTick(r, instruction, inM, reset);
      p.next == Lift(c.next) &&
      p.output == PyTickOutput(c.request.outM, c.request.writeM, c.request.addressM)
  {
    hide Alu, PyAlu;
    PyAluAgrees(r.D, if ReadsMemory(instruction) then inM else r.A, CompField(instruction));
  }

  /** A bytearray holding `words` big-endian, two bytes per word. */
  predicate WordsMatch(mem: seq<Byte>, words: seq<Word>)
  {
    |mem| == 2 * |words| && forall k :: 0 <= k < |words| ==> WordAt(mem, k) == words[k]
  }

  /** Reading a word of a 32768-word bytearray gives the C word, and raises
   *  `IndexError` exactly where C's bounds check fails. */
  lemma ReadWordAgrees(mem: seq<Byte>, words: seq<Word>, addr: Word)
    requires |words| == 0x8000 && WordsMatch(mem, words)
    ensures ReadWord(mem, addr) == if addr < 0x8000 then Returned(words[addr]) else Raised(IndexError)
  {
    if addr < 0x8000 {
      assert WordAt(mem, addr) == words[addr];
    }
  }

  /** Storing a word inside a 32768-word bytearray stores its two bytes and
   *  keeps the bytearray in step with the C array after `ram[addr] = val`. */
  lemma StoreWordAgrees(mem: seq<Byte>, words: seq<Word>, addr: Word, val: Word)
    requires |words| == 0x8000 && WordsMatch(mem, words) && addr < 0x8000
    ensures var s := StoreWord(mem, addr, val);
      s.outcome == Returned(()) && WordsMatch(s.mem, words[addr := val])
  {
    var high, low := val / 0x100, val % 0x100;
    assert Mask16(val) == val && Mask8(val) == low;
    var mem1 := mem[2 * addr := high];
    var mem2 := mem1[2 * addr + 1 := low];
    assert StoreByte(mem, 2 * addr, high) == Returned(mem1);
    assert StoreByte(mem1, 2 * addr + 1, low) == Returned(mem2);
    assert StoreWord(mem, addr, val) == Stored(mem2, Returned(()));
    forall k | 0 <= k < 0x8000
      ensures WordAt(mem2, k) == words[addr := val][k]
    {
      if k != addr {
        assert WordAt(mem2, k) == WordAt(mem, k);
      }
    }
  }

  /** A C machine with the memories of hackmain.c and a Python machine in the
   *  same state: the same words, registers, counter and shadows. */
  predicate Corresponds(m: Machine, pm: PyMachine)
  {
    |m.rom| == 0x8000 && |m.ram| == 0x8000 &&
    WordsMatch(pm.rom, m.rom) && WordsMatch(pm.ram, m.ram) &&
    pm.cpu == Lift(m.cpu) && pm.cycles == m.cycles && pm.PC == m.PC && pm.A == m.A
  }

  /** `computer_init(c, 32*1024, 32*1024)` and `Computer()` start alike. */
  lemma InitialAgrees()
    ensures Corresponds(Initial(0x8000, 0x8000), PyInitial())
  {
    var m, pm := Initial(0x8000, 0x8000), PyInitial();
    forall k | 0 <= k < 0x8000
      ensures WordAt(pm.rom, k) == 0 && WordAt(pm.ram, k) == 0
    {
    }
  }

  /** `computer_reset` and `Computer.reset` keep corresponding states
   *  corresponding. */
  lemma ResetAgrees(m: Machine, pm: PyMachine)
    requires Corresponds(m, pm)
    ensures Corresponds(MachineReset(m), PyReset(pm))
  {
    PyCpuTickAgrees(m.cpu, 0, 0, true);
  }

  /** One cycle from corresponding states, with the shadows in sync: Python
   *  raises (an `IndexError`, before changing anything) exactly when C
   *  reports an error, and otherwise both reach corresponding states and
   *  report the same write. */
  lemma TickTockAgrees(m: Machine, pm: PyMachine)
    requires Corresponds(m, pm) && InSync(m) && m.cycles < 0xFFFF_FFFF_FFFF_FFFF
    ensures var c, s := MachineTickTock(m), PyTickTock(pm);
      (s.outcome.Raised? <==> c.error != 0) &&
      (s.outcome.Raised? ==> s.m == pm && s.outcome.exception == IndexError) &&
      (s.outcome.Returned? ==>
        Corresponds(c.next, s.m) &&
        s.outcome.value == PyTickOutput(c.request.outM, c.request.writeM, c.request.addressM))
  {
    ReadWordAgrees(pm.rom, m.rom, m.PC);
    ReadWordAgrees(pm.ram, m.ram, m.A);
    TickTockErrors(m);
    if m.PC < 0x8000 && m.A < 0x8000 {
      CycleAgrees(m, pm);
    }
  }

  /** The cycle of `TickTockAgrees` once both fetches are inside the
   *  memories. */
  lemma CycleAgrees(m: Machine, pm: PyMachine)
    requires Corresponds(m, pm) && InSync(m) && m.cycles < 0xFFFF_FFFF_FFFF_FFFF
    requires m.PC < 0x8000 && m.A < 0x8000
    ensures var c, s := MachineTickTock(m), PyTickTock(pm);
      s.outcome.Returned? && Corresponds(c.next, s.m) &&
      s.outcome.value == PyTickOutput(c.request.outM, c.request.writeM, c.request.addressM)
  {
    hide CpuTick, PyCpuTick, ReadWord, StoreWord, StoreByte, WordsMatch;
    ReadWordAgrees(pm.rom, m.rom, m.PC);
    ReadWordAgrees(pm.ram, m.ram, m.A);
    var t := CpuTick(m.cpu, Fetch(m), ReadM(m), false);
    PyCpuTickAgrees(m.cpu, Fetch(m), ReadM(m), false);
    TickTockEffect(m);
    WriteTargetsReadWord(m);
    if t.request.writeM {
      StoreWordAgrees(pm.ram, m.ram, t.request.addressM, t.request.outM);
    }
  }

  /** The two run loops from corresponding states, errors not ignored and a
   *  positive limit: C halts on an error exactly when Python raises, and
   *  when they finish their states correspond. */
  lemma {:induction false} RunLoopAgrees(m: Machine, pm: PyMachine, maxcycles: Int32, fuel: nat)
    requires Corresponds(m, pm) && InSync(m)
    requires 0 < maxcycles && m.cycles <= maxcycles && fuel >= maxcycles - m.cycles
    ensures var r, s := RunLoop(m, maxcycles, false, fuel), PyRunLoop(pm, maxcycles);
      !r.status.OutOfFuel? &&
      (r.status.Finished? <==> s.outcome.Returned?) &&
      (r.status.Finished? ==> Corresponds(r.final, s.m))
    decreases maxcycles - m.cycles
  {
    hide MachineTickTock, PyTickTock, WordsMatch, CpuTick, PyCpuTick;
    if m.cycles < maxcycles {
      TickTockAgrees(m, pm);
      TickTockEffect(m);
      var c, s := MachineTickTock(m), PyTickTock(pm);
      assert CycleLimit(maxcycles) == maxcycles;
      assert c.next.cycles == m.cycles + 1;
      if c.error == 0 {
        RunLoopAgrees(c.next, s.m, maxcycles, fuel - 1);
      }
    }
  }

  /** `computer_run(c, maxcycles, 0)` and `Computer.run(maxcycles)` from
   *  corresponding states, for a positive limit. */
  lemma RunAgrees(m: Machine, pm: PyMachine, maxcycles: Int32, fuel: nat)
    requires Corresponds(m, pm) && 0 < maxcycles && fuel >= maxcycles
    ensures var r, s := MachineRun(m, maxcycles, false, fuel), PyRun(pm, maxcycles);
      !r.status.OutOfFuel? &&
      (r.status.Finished? <==> s.outcome.Returned?) &&
      (r.status.Finished? ==> Corresponds(r.final, s.m))
  {
    ResetAgrees(m, pm);
    ResetZeroes(m);
    RunLoopAgrees(MachineReset(m), PyReset(pm), maxcycles, fuel);
  }

  /** A limit of zero or less: Python's loop ends right after the reset,
   *  while C's goes on (zero means no limit, and a negative limit is
   *  converted to a huge unsigned one). */
  lemma NonPositiveLimitDiverges(m: Machine, pm: PyMachine, maxcycles: Int32)
    requires maxcycles <= 0
    ensures PyRun(pm, maxcycles) == PyStep(PyReset(pm), Returned(()))
    ensures KeepsRunning(MachineReset(m), maxcycles)
  {
    hide PyTickTock, PyCpuTick, CpuTick;
    PyResetZeroes(pm);
    ResetZeroes(m);
  }

  /** `mmio_get` and `mmio_set` agree with C inside the RAM; past it C reads
   *  0 and ignores the store, while Python raises `IndexError` and changes
   *  nothing. */
  lemma MmioAgrees(m: Machine, pm: PyMachine, addr: Word, val: Word)
    requires Corresponds(m, pm)
    ensures PyMmioGet(pm, addr) ==
      if addr < 0x8000 then Returned(MachineMmioGet(m, addr)) else Raised(IndexError)
    ensures var s := PyMmioSet(pm, addr, val);
      if addr < 0x8000 then s.outcome == Returned(()) && Corresponds(MachineMmioSet(m, addr, val), s.m)
      else s.outcome == Raised(IndexError) && s.m == pm && MachineMmioSet(m, addr, val) == m
  {
    ReadWordAgrees(pm.ram, m.ram, addr);
    if addr < 0x8000 {
      StoreWordAgrees(pm.ram, m.ram, addr, val);
    }
  }

  /** A ROM file as the assembler writes it, each line ending in nothing,
   *  LF or CR LF: both programs load all of it, the C ROM holds exactly the
   *  file's words in its first lines, and the Python ROM holds the same
   *  words as the C ROM. */
  lemma AssembledRomAgrees(rom: seq<Word>, prom: seq<Byte>, words: seq<Word>, ends: seq<string>, lines: seq<string>)
    requires |rom| == 0x8000 && WordsMatch(prom, rom)
    requires |words| == |ends| == |lines| <= 0x8000
    requires forall j :: 0 <= j < |lines| ==> lines[j] == Binary(words[j], 16) + ends[j]
    requires forall j :: 0 <= j < |ends| ==> ends[j] == "" || ends[j] == "\n" || ends[j] == "\r\n"
    ensures var (crom, result) := LoadFrom(rom, lines, 0);
      var py := PyLoadLines(prom, lines, 0);
      result == Loaded && py.outcome == Returned(()) && WordsMatch(py.mem, crom) &&
      forall j :: 0 <= j < |rom| ==> crom[j] == if j < |words| then words[j] else rom[j]
  {
    hide Binary, ParseRomLine, PyIntBase2, LoadLine, PyLoadLines, StoreWords, LoadFrom;
    var (crom, result) := LoadFrom(rom, lines, 0);
    LoadFromStores(rom, lines, 0);
    forall j | 0 <= j < |lines|
      ensures ParseRomLine(lines[j]) == Instruction(words[j])
    {
      AssembledLineLoads(words[j], ends[j]);
    }
    assert result == Loaded;
    forall j, i | 0 <= j < |ends| && 0 <= i < |ends[j]|
      ensures IsPySpace(ends[j][i])
    {
    }
    AssembledFileLoads(prom, words, ends, lines, 0);
    var pmem := StoreWords(prom, words, 0);
    forall k | 0 <= k < 0x8000
      ensures WordAt(pmem, k) == crom[k]
    {
      if k >= |words| {
        assert WordAt(pmem, k) == WordAt(prom, k);
      }
    }
  }

  /** A blank line: C's `strtoul` converts nothing and the line loads the
   *  instruction 0, while Python's `int('\n', 2)` raises `ValueError` and
   *  the ROM stays as it was. */
  lemma BlankLineDiverges(rom: seq<Byte>, k: nat, eol: string)
    requires eol == "\n" || eol == "\r\n"
    ensures ParseRomLine(eol) == Instruction(0)
    ensures LoadLine(rom, eol, k) == Stored(rom, Raised(ValueError))
  {
    EmptyLineLoadsZero(eol);
    assert eol[..|eol|] == eol;
    PyIntRejectsBlank(eol);
  }

  /** A trailing blank after an assembled word: `strtoul` stops at the blank
   *  and C rejects the line, showing the blank, while `int` strips it and
   *  Python loads the word. */
  lemma TrailingBlankDiverges(rom: seq<Byte>, k: nat, w: Word, eol: string, line: string)
    requires eol == "" || eol == "\n" || eol == "\r\n"
    requires line == Binary(w, 16) + " " + eol
    requires 2 * k + 1 < |rom| <= 0x8000_0000_0000_0000
    ensures ParseRomLine(line) == Invalid(" ")
    ensures LoadLine(rom, line, k) == Stored(PutBytes(rom, 2 * k, w / 0x100, w % 0x100), Returned(()))
  {
    hide Binary, ParseRomLine, PyIntBase2, LoadLine;
    DigitsThenTextRejected(Binary(w, 16), " ", eol);
    assert line == Binary(w, 16) + (" " + eol);
    AssembledLineBytes(w, " " + eol);
    LoadsLine(rom, line, k, w / 0x100, w % 0x100);
  }

  /** A line of only 15 digits: C reads the number they denote, while
   *  Python reads the first eight digits as the high byte and the last
   *  seven as the low byte.  The two agree only for numbers below 0x80;
   *  `100000000000000` loads 0x4000 in C and 0x8000 in Python. */
  lemma FifteenDigitLineDiverges(rom: seq<Byte>, k: nat, w: Word, eol: string, line: string)
    requires w < 0x8000
    requires eol == "" || eol == "\n" || eol == "\r\n"
    requires line == Binary(w, 15) + eol
    requires 2 * k + 1 < |rom| <= 0x8000_0000_0000_0000
    ensures ParseRomLine(line) == Instruction(w)
    ensures LoadLine(rom, line, k) == Stored(PutBytes(rom, 2 * k, w / 0x80, w % 0x80), Returned(()))
    ensures (w / 0x80) * 0x100 + w % 0x80 == w <==> w < 0x80
  {
    hide PyIntBase2, Binary, BinValue, Pow2, ParseRomLine, LoadLine;
    Pow2Widths();
    BinaryFifteen(w);
    var high, low := Binary(w / 0x80, 8), Binary(w % 0x80, 7);
    BinValueOfBinary(w, 15);
    DigitsKeepLow16Bits(Binary(w, 15), eol);
    assert line[..8] == high + [] && line[8..] == low + eol;
    PyIntOfNumeral(high, []);
    PyIntOfNumeral(low, eol);
    BinValueOfBinary(w / 0x80, 8);
    BinValueOfBinary(w % 0x80, 7);
    LoadsLine(rom, line, k, w / 0x80, w % 0x80);
  }
}
