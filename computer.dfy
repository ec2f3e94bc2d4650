/** The Hack computer of hackcpu.c: the CPU wired to a ROM and a RAM
 *  (hackcpu.c:139-290).
 *
 *  `Machine` is the value of the `Computer` struct of hackcpu.h:13-23, with
 *  the two `calloc`ed arrays as sequences whose lengths are `romsize` and
 *  `ramsize`.  The functions give the meaning of `computer_init`,
 *  `computer_reset`, `computer_ticktock`, the memory-mapped I/O helpers,
 *  `computer_run` and the line loop of `computer_loadrom`; the class
 *  `Computer` holds the arrays and updates them in place, proved against
 *  those functions.
 */
module HackComputer {
  import opened HackWord
  import opened HackErrors
  import opened HackCpu
  import opened HackRomLine

  /** The `Computer` struct: ROM, RAM, the embedded CPU, the cycle counter
   *  and the shadow PC and A that the last tock exported. */
  datatype Machine = Machine(rom: seq<Word>, ram: seq<Word>, cpu: Registers, cycles: U64, PC: Word, A: Word)

  /** The shadows agree with the CPU, as every reset and cycle leaves them. */
  predicate InSync(m: Machine)
  {
    m.PC == m.cpu.PC && m.A == m.cpu.A
  }

  /** `computer_init(c, romsize, ramsize)`: zero-filled memories of the
   *  requested sizes, and every register, shadow and counter zero. */
  function Initial(romsize: nat, ramsize: nat): (m: Machine)
    ensures |m.rom| == romsize && |m.ram| == ramsize
    ensures forall i :: 0 <= i < romsize ==> m.rom[i] == 0
    ensures forall i :: 0 <= i < ramsize ==> m.ram[i] == 0
    ensures m.cpu == Registers(0, 0, 0) && m.cycles == 0 && m.PC == 0 && m.A == 0
  {
    Machine(seq(romsize, _ => 0), seq(ramsize, _ => 0), Registers(0, 0, 0), 0, 0, 0)
  }

  /** `computer_reset`: the cycle counter restarts, the CPU ticks once on
   *  instruction 0 with reset held, and the tock refreshes the shadows. */
  function MachineReset(m: Machine): Machine
  {
    var next := CpuTick(m.cpu, 0, 0, true).next;
    m.(cycles := 0, cpu := next, PC := next.PC, A := next.A)
  }

  /** After a reset the counter, PC and A are zero, and D and both memories
   *  are as they were: instruction 0 is the A-instruction `@0`. */
  lemma ResetZeroes(m: Machine)
    ensures MachineReset(m) == m.(cycles := 0, cpu := Registers(0, m.cpu.D, 0), PC := 0, A := 0)
    ensures InSync(MachineReset(m))
  {
    AInstructionStep(m.cpu, 0, 0, true);
  }

  /** One clock cycle and what `computer_ticktock` returns with it. */
  datatype Cycle = Cycle(next: Machine, error: ErrorBits, request: WriteRequest)

  /** The instruction fetched at the shadow PC: 0 past the end of the ROM. */
  function Fetch(m: Machine): Word
  {
    if m.PC < |m.rom| then m.rom[m.PC] else 0
  }

  /** The data word read at the shadow A: 0 past the end of the RAM. */
  function ReadM(m: Machine): Word
  {
    if m.A < |m.ram| then m.ram[m.A] else 0
  }

  /** `computer_ticktock`: fetch, tick, write, tock, count.  An out-of-range
   *  fetch sets `ERR_READ_ROM`; an out-of-range read and an out-of-range
   *  write both set `ERR_READ_RAM`, as hackcpu.c:202 is written. */
  function MachineTickTock(m: Machine): (c: Cycle)
  {
    AfterTick(m, CpuTick(m.cpu, Fetch(m), ReadM(m), false))
  }

  /** The rest of a cycle once the CPU has ticked with result `t`: the
   *  write, the error mask, the tock and the count. */
  function AfterTick(m: Machine, t: TickResult): Cycle
  {
    var w := t.request;
    var writeOk := w.addressM < |m.ram|;
    var ram := if w.writeM && writeOk then m.ram[w.addressM := w.outM] else m.ram;
    var e := ReadErrors(m);
    var error := if w.writeM && !writeOk then e | ErrReadRam else e;
    Cycle(m.(ram := ram, cpu := t.next, cycles := (m.cycles + 1) % 0x1_0000_0000_0000_0000,
             PC := t.next.PC, A := t.next.A),
          error, w)
  }

  /** The error bits of the fetch and the read. */
  function ReadErrors(m: Machine): ErrorBits
  {
    var e: ErrorBits := if m.PC < |m.rom| then 0 else ErrReadRom;
    if m.A < |m.ram| then e else e | ErrReadRam
  }

  /** The error mask of a cycle: `ERR_READ_ROM` for a fetch past the ROM,
   *  `ERR_READ_RAM` for a read or a write past the RAM, and never
   *  `ERR_WRITE_RAM`. */
  lemma TickTockErrors(m: Machine)
    ensures var c := MachineTickTock(m);
      var badWrite := c.request.writeM && c.request.addressM >= |m.ram|;
      c.error == ErrorMask(m.PC >= |m.rom|, m.A >= |m.ram| || badWrite, false)
  {
  }

  /** What a cycle does to the state: the CPU ticks on the fetched
   *  instruction and data word; only the addressed RAM word can change, and
   *  only for an enabled write inside the RAM; the ROM never changes; the
   *  counter goes up by one modulo 2^64; the shadows take the new PC and A. */
  lemma TickTockEffect(m: Machine)
    ensures var c := MachineTickTock(m);
      var t := CpuTick(m.cpu, Fetch(m), ReadM(m), false);
      c.request == t.request && c.next.cpu == t.next &&
      c.next.rom == m.rom && |c.next.ram| == |m.ram| &&
      (forall i :: 0 <= i < |m.ram| && i != t.request.addressM ==> c.next.ram[i] == m.ram[i]) &&
      (t.request.writeM && t.request.addressM < |m.ram| ==> c.next.ram[t.request.addressM] == t.request.outM) &&
      (!t.request.writeM ==> c.next.ram == m.ram) &&
      c.next.cycles == (m.cycles + 1) % 0x1_0000_0000_0000_0000 &&
      InSync(c.next)
  {
  }

  /** With the shadows in sync the write address is the address just read,
   *  so a write past the RAM has already been reported as a bad read. */
  lemma WriteErrorFollowsReadError(m: Machine)
    requires InSync(m)
    ensures var c := MachineTickTock(m);
      c.request.writeM && c.request.addressM >= |m.ram| ==> m.A >= |m.ram|
  {
  }

  /** With the shadows in sync, a cycle writes back to the RAM word it has
   *  just read as `inM`: the write address is the shadow A, and an enabled
   *  write inside the RAM leaves the ALU output there. */
  lemma WriteTargetsReadWord(m: Machine)
    requires InSync(m)
    ensures var c := MachineTickTock(m);
      c.request.addressM == m.A &&
      (c.request.writeM && m.A < |m.ram| ==> c.next.ram[m.A] == c.request.outM) &&
      (forall i :: 0 <= i < |m.ram| && i != m.A ==> c.next.ram[i] == m.ram[i])
  {
    TickTockEffect(m);
  }

  /** `computer_mmio_get`: the RAM word, or 0 past the end. */
  function MachineMmioGet(m: Machine, addr: Word): Word
  {
    if addr < |m.ram| then m.ram[addr] else 0
  }

  /** `computer_mmio_set`: store the word, or do nothing past the end. */
  function MachineMmioSet(m: Machine, addr: Word, val: Word): Machine
  {
    if addr < |m.ram| then m.(ram := m.ram[addr := val]) else m
  }

  /** A stored word reads back; no other word, and nothing outside the RAM,
   *  changes; a store past the end changes nothing at all. */
  lemma MmioSetThenGet(m: Machine, addr: Word, val: Word, other: Word)
    ensures addr < |m.ram| ==> MachineMmioGet(MachineMmioSet(m, addr, val), addr) == val
    ensures other != addr ==> MachineMmioGet(MachineMmioSet(m, addr, val), other) == MachineMmioGet(m, other)
    ensures addr >= |m.ram| ==> MachineMmioSet(m, addr, val) == m
    ensures MachineMmioSet(m, addr, val).(ram := m.ram) == m
  {
  }

  /** How `computer_run` ends: the cycle limit is reached, the program exits
   *  with status 1 on an error (unless errors are ignored), or the model's
   *  fuel runs out first (the C loop has no such bound). */
  datatype RunStatus = Finished | Halted(error: ErrorBits) | OutOfFuel

  datatype RunOutcome = RunOutcome(status: RunStatus, final: Machine)

  /** `c->cycles < maxcycles` compares with `maxcycles` converted to
   *  `unsigned long long`, that is, modulo 2^64. */
  function CycleLimit(maxcycles: Int32): U64
  {
    maxcycles % 0x1_0000_0000_0000_0000
  }

  /** The loop condition `!maxcycles || c->cycles < maxcycles`. */
  predicate KeepsRunning(m: Machine, maxcycles: Int32)
  {
    maxcycles == 0 || m.cycles < CycleLimit(maxcycles)
  }

  /** The loop of `computer_run`, simulating at most `fuel` cycles. */
  function RunLoop(m: Machine, maxcycles: Int32, ignore: bool, fuel: nat): RunOutcome
    decreases fuel
  {
    if !KeepsRunning(m, maxcycles) then RunOutcome(Finished, m)
    else if fuel == 0 then RunOutcome(OutOfFuel, m)
    else
      var c := MachineTickTock(m);
      if c.error != 0 && !ignore then RunOutcome(Halted(c.error), c.next)
      else RunLoop(c.next, maxcycles, ignore, fuel - 1)
  }

  /** `computer_run` without the final RAM dump. */
  function MachineRun(m: Machine, maxcycles: Int32, ignore: bool, fuel: nat): RunOutcome
  {
    RunLoop(MachineReset(m), maxcycles, ignore, fuel)
  }

  /** A negative `maxcycles` is not "no limit" but a limit of at least 2^63. */
  lemma NegativeLimitIsHuge(maxcycles: Int32)
    requires maxcycles < 0
    ensures CycleLimit(maxcycles) >= 0x8000_0000_0000_0000
  {
  }

  /** With a limit and enough fuel the loop does not run out of fuel, and
   *  when it finishes the counter stands exactly at the limit. */
  lemma {:induction false} RunLoopReachesLimit(m: Machine, maxcycles: Int32, ignore: bool, fuel: nat)
    requires maxcycles != 0 && m.cycles <= CycleLimit(maxcycles)
    requires fuel >= CycleLimit(maxcycles) - m.cycles
    ensures var r := RunLoop(m, maxcycles, ignore, fuel);
      !r.status.OutOfFuel? && (r.status.Finished? ==> r.final.cycles == CycleLimit(maxcycles))
    decreases fuel
  {
    hide CpuTick;
    if KeepsRunning(m, maxcycles) {
      var c := MachineTickTock(m);
      assert c.next.cycles == m.cycles + 1;
      if !(c.error != 0 && !ignore) {
        RunLoopReachesLimit(c.next, maxcycles, ignore, fuel - 1);
      }
    }
  }

  /** `computer_run` with a non-zero `maxcycles` runs exactly that many
   *  cycles (modulo 2^64) unless it stops on an error. */
  lemma RunReachesLimit(m: Machine, maxcycles: Int32, ignore: bool, fuel: nat)
    requires maxcycles != 0 && fuel >= CycleLimit(maxcycles)
    ensures var r := MachineRun(m, maxcycles, ignore, fuel);
      !r.status.OutOfFuel? && (r.status.Finished? ==> r.final.cycles == CycleLimit(maxcycles))
  {
    RunLoopReachesLimit(MachineReset(m), maxcycles, ignore, fuel);
  }

  /** With `maxcycles == 0` the loop never finishes by itself: it only
   *  stops on an error, or runs as long as there is fuel. */
  lemma {:induction false} UnboundedRunNeverFinishes(m: Machine, ignore: bool, fuel: nat)
    ensures !RunLoop(m, 0, ignore, fuel).status.Finished?
    decreases fuel
  {
    hide CpuTick;
    if fuel > 0 {
      var c := MachineTickTock(m);
      if !(c.error != 0 && !ignore) {
        UnboundedRunNeverFinishes(c.next, ignore, fuel - 1);
      }
    }
  }

  /** The run stops early only on a non-zero error mask, and never when
   *  errors are ignored; the ROM and the RAM size never change. */
  lemma {:induction false} RunLoopStops(m: Machine, maxcycles: Int32, ignore: bool, fuel: nat)
    ensures var r := RunLoop(m, maxcycles, ignore, fuel);
      (r.status.Halted? ==> r.status.error != 0 && !ignore) &&
      r.final.rom == m.rom && |r.final.ram| == |m.ram|
    decreases fuel
  {
    hide CpuTick;
    if KeepsRunning(m, maxcycles) && fuel > 0 {
      var c := MachineTickTock(m);
      TickTockEffect(m);
      if !(c.error != 0 && !ignore) {
        RunLoopStops(c.next, maxcycles, ignore, fuel - 1);
      }
    }
  }

  /** The converse of `RunLoopStops`: a cycle that sets an error bit while
   *  the limit is not yet reached ends a run that does not ignore errors,
   *  with that cycle's mask and machine. */
  lemma ErrorHaltsRun(m: Machine, maxcycles: Int32, fuel: nat)
    requires KeepsRunning(m, maxcycles) && fuel > 0 && MachineTickTock(m).error != 0
    ensures RunLoop(m, maxcycles, false, fuel)
         == RunOutcome(Halted(MachineTickTock(m).error), MachineTickTock(m).next)
  {
  }

  /** With errors ignored, a cycle that sets an error bit is simply followed
   *  by the next one. */
  lemma IgnoredErrorContinues(m: Machine, maxcycles: Int32, fuel: nat)
    requires KeepsRunning(m, maxcycles) && fuel > 0 && MachineTickTock(m).error != 0
    ensures RunLoop(m, maxcycles, true, fuel) == RunLoop(MachineTickTock(m).next, maxcycles, true, fuel - 1)
  {
  }

  /** Why `computer_loadrom` stops: the file ended, or line `lineNumber`
   *  (counting from 1) held text `strtoul` could not read, which makes the
   *  program exit with status 2. */
  datatype LoadResult = Loaded | BadLine(lineNumber: nat, rest: string)

  /** The line loop of `computer_loadrom` from line `address` (counting from
   *  0) on: each accepted line is stored at its own address. */
  function LoadFrom(rom: seq<Word>, lines: seq<string>, address: nat): (r: (seq<Word>, LoadResult))
    requires address <= |lines| <= |rom|
    ensures |r.0| == |rom|
    ensures r.1.BadLine? ==> address < r.1.lineNumber <= |lines|
    decreases |lines| - address
  {
    if address == |lines| then (rom, Loaded)
    else match ParseRomLine(lines[address])
      case Invalid(rest) => (rom, BadLine(address + 1, rest))
      case Instruction(w) => LoadFrom(rom[address := w], lines, address + 1)
  }

  /** What loading a whole file leaves in the ROM: every line before the
   *  first bad one is stored at its address, and nothing else changes. */
  lemma {:induction false} LoadFromStores(rom: seq<Word>, lines: seq<string>, address: nat)
    requires address <= |lines| <= |rom|
    ensures var (rom', result) := LoadFrom(rom, lines, address);
      var stop := if result.BadLine? then result.lineNumber - 1 else |lines|;
      address <= stop <= |lines| && |rom'| == |rom| &&
      (forall i :: address <= i < stop ==> ParseRomLine(lines[i]) == Instruction(rom'[i])) &&
      (forall i :: 0 <= i < |rom| && !(address <= i < stop) ==> rom'[i] == rom[i]) &&
      (result.BadLine? ==> stop < |lines| && ParseRomLine(lines[stop]) == Invalid(result.rest))
    decreases |lines| - address
  {
    hide ParseRomLine;
    if address < |lines| {
      match ParseRomLine(lines[address])
      case Invalid(rest) =>
      case Instruction(w) =>
        LoadFromStores(rom[address := w], lines, address + 1);
    }
  }

  /** The `Computer` struct with its two arrays. */
  class Computer {
    var rom: array<Word>
    var ram: array<Word>
    var romsize: int
    var ramsize: int
    const cpu: Cpu
    var cycles: U64
    var PC: Word
    var A: Word

    ghost predicate Valid()
      reads this
    {
      rom.Length == romsize && ram.Length == ramsize && rom != ram
    }

    function State(): Machine
      reads this, rom, ram, cpu
    {
      Machine(rom[..], ram[..], cpu.State(), cycles, PC, A)
    }

    /** `computer_init`; `calloc` zero-fills both arrays. */
    constructor Init(romsize: Int32, ramsize: Int32)
      requires 0 <= romsize && 0 <= ramsize
      ensures Valid() && fresh(rom) && fresh(ram) && fresh(cpu)
      ensures State() == Initial(romsize, ramsize)
    {
      rom := new Word[romsize](_ => 0);
      ram := new Word[ramsize](_ => 0);
      this.romsize := romsize;
      this.ramsize := ramsize;
      cpu := new Cpu.Init();
      cycles := 0;
      PC := 0;
      A := 0;
    }

    /** `computer_reset`. */
    method Reset()
      requires Valid()
      modifies this, cpu
      ensures Valid() && rom == old(rom) && ram == old(ram)
      ensures State() == MachineReset(old(State()))
    {
      hide CpuTick;
      cycles := 0;
      var _, _, _ := cpu.Tick(0, 0, true);
      PC, A := cpu.Tock();
    }

    /** `computer_ticktock` without its debug tracing. */
    method TickTock() returns (error: ErrorBits, addressM: Word, outM: Word, writeM: bool)
      requires Valid()
      modifies this, ram, cpu
      ensures Valid() && rom == old(rom) && ram == old(ram)
      ensures Cycle(State(), error, WriteRequest(addressM, outM, writeM)) == MachineTickTock(old(State()))
    {
      hide CpuTick, ReadErrors, Fetch, ReadM;
      ghost var m := State();
      var instruction, inM;
      instruction, inM, error := ReadOperands();
      var addr, out, w := cpu.Tick(instruction, inM, false);
      ghost var t := TickResult(cpu.State(), WriteRequest(addr, out, w));
      error := WriteBack(addr, out, w, error);
      PC, A := cpu.Tock();
      cycles := (cycles + 1) % 0x1_0000_0000_0000_0000;
      addressM, outM, writeM := addr, out, w;
      assert Cycle(State(), error, WriteRequest(addressM, outM, writeM)) == AfterTick(m, t);
    }

    /** The bounds-checked fetch and read that open `computer_ticktock`: an
     *  address past the end reads 0 and sets its error bit. */
    method ReadOperands() returns (instruction: Word, inM: Word, error: ErrorBits)
      requires Valid()
      ensures instruction == Fetch(State()) && inM == ReadM(State())
      ensures error == ReadErrors(State())
    {
      instruction, inM, error := 0, 0, 0;
      if PC < romsize {
        instruction := rom[PC];
      } else {
        error := error | ErrReadRom;
      }
      if A < ramsize {
        inM := ram[A];
      } else {
        error := error | ErrReadRam;
      }
    }

    /** The bounds-checked write of `computer_ticktock`: a write past the end
     *  is dropped and sets `ERR_READ_RAM`. */
    method WriteBack(addr: Word, out: Word, w: bool, error: ErrorBits) returns (error': ErrorBits)
      requires Valid()
      modifies ram
      ensures ram[..] == if w && addr < ramsize then old(ram[..])[addr := out] else old(ram[..])
      ensures error' == if w && addr >= ramsize then error | ErrReadRam else error
    {
      error' := error;
      if w {
        if addr < ramsize {
          ram[addr] := out;
        } else {
          error' := error' | ErrReadRam;
        }
      }
    }

    /** `computer_mmio_get`. */
    method MmioGet(addr: Word) returns (val: Word)
      requires Valid()
      ensures val == MachineMmioGet(State(), addr)
    {
      if addr < ramsize {
        return ram[addr];
      }
      return 0;
    }

    /** `computer_mmio_set`. */
    method MmioSet(addr: Word, val: Word)
      requires Valid()
      modifies ram
      ensures State() == MachineMmioSet(old(State()), addr, val)
    {
      if addr < ramsize {
        ram[addr] := val;
      }
    }

    /** `computer_run` up to its RAM dump, simulating at most `fuel` cycles;
     *  a `Halted` result is where the program calls `exit(1)`. */
    method Run(maxcycles: Int32, ignore: bool, fuel: nat) returns (status: RunStatus)
      requires Valid()
      modifies this, ram, cpu
      ensures Valid() && rom == old(rom) && ram == old(ram)
      ensures RunOutcome(status, State()) == MachineRun(old(State()), maxcycles, ignore, fuel)
    {
      hide CpuTick;
      Reset();
      var remaining := fuel;
      while maxcycles == 0 || cycles < maxcycles % 0x1_0000_0000_0000_0000
        invariant Valid() && rom == old(rom) && ram == old(ram)
        invariant RunLoop(State(), maxcycles, ignore, remaining) == MachineRun(old(State()), maxcycles, ignore, fuel)
        decreases remaining
      {
        if remaining == 0 {
          return OutOfFuel;
        }
        var err, _, _, _ := TickTock();
        if err != 0 && !ignore {
          return Halted(err);
        }
        remaining := remaining - 1;
      }
      return Finished;
    }

    /** The line loop of `computer_loadrom`, given the lines `fgets` reads.
     *  The loop has no check against `romsize`, so the file must fit. */
    method LoadRom(lines: seq<string>) returns (result: LoadResult)
      requires Valid() && |lines| <= romsize
      modifies rom
      ensures (rom[..], result) == LoadFrom(old(rom[..]), lines, 0)
    {
      var address := 0;
      while address < |lines|
        invariant 0 <= address <= |lines|
        invariant LoadFrom(rom[..], lines, address) == LoadFrom(old(rom[..]), lines, 0)
      {
        match ParseRomLine(lines[address])
        case Invalid(rest) =>
          return BadLine(address + 1, rest);
        case Instruction(w) =>
          rom[address] := w;
        address := address + 1;
      }
      return Loaded;
    }
  }
}
