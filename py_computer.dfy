/** The `Computer` class of the Python port (python/hackcpu.py:76-136).
 *
 *  ROM and RAM are `bytearray`s of 65536 bytes holding 32768 big-endian
 *  words.  Addresses are unbounded Python integers and nothing checks them:
 *  a byte index `i` is valid when `-len <= i < len` (a negative index
 *  counts from the end), and any other index raises `IndexError` out of
 *  the method, leaving the state as it was at that point.  A store checks
 *  its value (0..255, else `ValueError`) before its index, as CPython 3.11
 *  and later do, but an index too large for a C `Py_ssize_t` is refused
 *  as an `IndexError` before either.
 *
 *  The functions give the meaning of each method on a `PyMachine` value;
 *  the class `PyComputer` keeps the two bytearrays as arrays and its
 *  methods are proved against those functions.
 */
module PyHackComputer {
  import opened HackWord
  import opened HackRomLine
  import opened PyHackCpu
  import opened PyIntLiteral

  /** The exceptions the methods can raise. */
  datatype PyException = IndexError | ValueError

  /** A method's return value, or the exception it raises. */
  datatype Outcome<T> = Returned(value: T) | Raised(exception: PyException)

  /** The attributes of a `Computer` object. */
  datatype PyMachine = PyMachine(rom: seq<Byte>, ram: seq<Byte>, cpu: PyRegisters, cycles: int, PC: int, A: int)

  /** The state after a method call (at the raise, when it raised) and its
   *  outcome. */
  datatype PyStep<T> = PyStep(m: PyMachine, outcome: Outcome<T>)

  /** A bytearray after a sequence of stores, and whether one raised. */
  datatype Stored = Stored(mem: seq<Byte>, outcome: Outcome<()>)

  /** `Computer.__init__`: two zeroed bytearrays of 32 * 1024 * 2 bytes, a
   *  fresh `CPU`, and zero counters. */
  function PyInitial(): (m: PyMachine)
    ensures |m.rom| == |m.ram| == 0x1_0000
    ensures forall i :: 0 <= i < 0x1_0000 ==> m.rom[i] == 0 && m.ram[i] == 0
    ensures m.cpu == PyRegisters(0, 0, 0) && m.cycles == 0 && m.PC == 0 && m.A == 0
  {
    PyMachine(seq(0x1_0000, _ => 0), seq(0x1_0000, _ => 0), PyRegisters(0, 0, 0), 0, 0, 0)
  }

  /** An index that fits a `Py_ssize_t` (64-bit). */
  predicate FitsIndex(i: int)
  {
    -0x8000_0000_0000_0000 <= i < 0x8000_0000_0000_0000
  }

  /** An index a sequence of `size` elements accepts. */
  predicate ValidIndex(size: nat, i: int)
  {
    -(size as int) <= i < size
  }

  /** The element a valid index designates: a negative index counts back
   *  from the end. */
  function Slot(size: nat, i: int): (k: nat)
    requires ValidIndex(size, i)
    ensures k < size && (k == i || k == i + size)
  {
    if i < 0 then i + size else i
  }

  /** `mem[i]`. */
  function ReadByte(mem: seq<Byte>, i: int): Outcome<Byte>
  {
    if ValidIndex(|mem|, i) then Returned(mem[Slot(|mem|, i)]) else Raised(IndexError)
  }

  /** `mem[addr * 2] << 8 | mem[addr * 2 + 1]`: the high byte is read first,
   *  and as the low byte is below 256 the OR is a sum. */
  function ReadWord(mem: seq<Byte>, addr: int): (r: Outcome<int>)
    ensures r.Returned? <==> ValidIndex(|mem|, addr * 2) && ValidIndex(|mem|, addr * 2 + 1)
    ensures r.Raised? ==> r.exception == IndexError
    ensures r.Returned? ==> 0 <= r.value < 0x1_0000
  {
    match ReadByte(mem, addr * 2)
    case Raised(e) => Raised(e)
    case Returned(high) =>
      match ReadByte(mem, addr * 2 + 1)
      case Raised(e) => Raised(e)
      case Returned(low) => Returned(high * 0x100 + low)
  }

  /** The big-endian word at word address `k` of a bytearray. */
  function WordAt(mem: seq<Byte>, k: nat): int
    requires 2 * k + 1 < |mem|
  {
    mem[2 * k] as int * 0x100 + mem[2 * k + 1]
  }

  /** `mem[i] = v`: an index beyond `Py_ssize_t`, then a value outside a
   *  byte, then an index outside the array raise; otherwise exactly the
   *  designated element changes. */
  function StoreByte(mem: seq<Byte>, i: int, v: int): (r: Outcome<seq<Byte>>)
    ensures r.Returned? <==> FitsIndex(i) && 0 <= v < 0x100 && ValidIndex(|mem|, i)
    ensures r.Raised? ==> (r.exception == ValueError <==> FitsIndex(i) && !(0 <= v < 0x100))
    ensures r.Returned? ==>
      |r.value| == |mem| && r.value[Slot(|mem|, i)] == v &&
      forall k :: 0 <= k < |mem| && k != Slot(|mem|, i) ==> r.value[k] == mem[k]
  {
    if !FitsIndex(i) then Raised(IndexError)
    else if !(0 <= v < 0x100) then Raised(ValueError)
    else if !ValidIndex(|mem|, i) then Raised(IndexError)
    else Returned(mem[Slot(|mem|, i) := v])
  }

  /** `mem[addr * 2] = (val & 0xffff) >> 8` then `mem[addr * 2 + 1] = val &
   *  0xff`.  When the second store raises, the first stays done. */
  function StoreWord(mem: seq<Byte>, addr: int, val: int): (r: Stored)
    ensures |r.mem| == |mem|
    ensures r.outcome.Raised? ==> r.outcome.exception == IndexError
  {
    match StoreByte(mem, addr * 2, Mask16(val) / 0x100)
    case Raised(e) => Stored(mem, Raised(e))
    case Returned(mem1) =>
      match StoreByte(mem1, addr * 2 + 1, Mask8(val))
      case Raised(e) => Stored(mem1, Raised(e))
      case Returned(mem2) => Stored(mem2, Returned(()))
  }

  /** `Computer.reset`: the counter restarts and the CPU ticks with reset
   *  asserted on instruction 0, and its tock sets `PC` and `A`. */
  function PyReset(m: PyMachine): PyMachine
  {
    var t := PyCpuTick(m.cpu, 0, 0, true);
    m.(cycles := 0, cpu := t.next, PC := t.next.PC, A := t.next.A)
  }

  /** Reset zeroes the cycle counter, A and PC, and keeps D and both
   *  memories. */
  lemma PyResetZeroes(m: PyMachine)
    ensures PyReset(m) == m.(cycles := 0, cpu := PyRegisters(0, m.cpu.D, 0), PC := 0, A := 0)
  {
    PyAInstructionStep(m.cpu, 0, 0, true);
  }

  /** `Computer.ticktock`: fetch, read M, tick, store when asked, tock,
   *  count.  A completed cycle adds exactly one to the counter; one that
   *  raises leaves the counter, `PC`, `A` and the ROM as they were, and
   *  only ever raises `IndexError`. */
  function PyTickTock(m: PyMachine): (s: PyStep<PyTickOutput>)
    ensures s.outcome.Returned? ==> s.m.cycles == m.cycles + 1
    ensures s.outcome.Raised? ==>
      s.outcome.exception == IndexError && s.m.cycles == m.cycles && s.m.PC == m.PC && s.m.A == m.A
    ensures s.m.rom == m.rom && |s.m.ram| == |m.ram|
  {
    match ReadWord(m.rom, m.PC)
    case Raised(e) => PyStep(m, Raised(e))
    case Returned(instruction) =>
      match ReadWord(m.ram, m.A)
      case Raised(e) => PyStep(m, Raised(e))
      case Returned(inM) =>
        var t := PyCpuTick(m.cpu, instruction, inM, false);
        var stored := if t.output.writeM then StoreWord(m.ram, t.output.oldA, t.output.aluOut)
                      else Stored(m.ram, Returned(()));
        var m1 := m.(cpu := t.next, ram := stored.mem);
        if stored.outcome.Raised? then PyStep(m1, Raised(stored.outcome.exception))
        else PyStep(m1.(PC := t.next.PC, A := t.next.A, cycles := m.cycles + 1), Returned(t.output))
  }

  /** `Computer.mmio_get`. */
  function PyMmioGet(m: PyMachine, addr: int): Outcome<int>
  {
    ReadWord(m.ram, addr)
  }

  /** `Computer.mmio_set`. */
  function PyMmioSet(m: PyMachine, addr: int, val: int): PyStep<()>
  {
    var stored := StoreWord(m.ram, addr, val);
    PyStep(m.(ram := stored.mem), stored.outcome)
  }

  /** Writing a word through `mmio_set` and reading it back with `mmio_get`
   *  gives its low 16 bits, and no other byte changes.  On a bytearray of
   *  even length (and, as every bytearray, at most `Py_ssize_t` long) the
   *  only failure is an `IndexError` before anything is written. */
  lemma PyMmioSetThenGet(m: PyMachine, addr: int, val: int)
    requires |m.ram| % 2 == 0 && |m.ram| <= 0x8000_0000_0000_0000
    ensures var s := PyMmioSet(m, addr, val);
      (s.outcome.Returned? <==> ValidIndex(|m.ram|, addr * 2)) &&
      (s.outcome.Raised? ==> s.m == m && s.outcome.exception == IndexError) &&
      (s.outcome.Returned? ==>
        PyMmioGet(s.m, addr) == Returned(val % 0x1_0000) &&
        var high := Slot(|m.ram|, addr * 2);
        forall k :: 0 <= k < |m.ram| && k != high && k != high + 1 ==> s.m.ram[k] == m.ram[k])
  {
    var n, i, j := |m.ram|, addr * 2, addr * 2 + 1;
    if ValidIndex(n, i) {
      assert ValidIndex(n, j) && FitsIndex(i) && FitsIndex(j);
      var high, low := Mask16(val) / 0x100, Mask8(val);
      var first := StoreByte(m.ram, i, high);
      assert first.Returned?;
      var second := StoreByte(first.value, j, low);
      assert second.Returned?;
      assert Slot(n, j) == Slot(n, i) + 1;
      assert ReadWord(second.value, addr) == Returned(high * 0x100 + low);
      JoinBytes(val);
    }
  }

  /** The `while self.cycles < maxcycles` loop of `Computer.run`. */
  function PyRunLoop(m: PyMachine, maxcycles: int): (s: PyStep<()>)
    ensures s.m.rom == m.rom && |s.m.ram| == |m.ram|
    decreases maxcycles - m.cycles
  {
    if m.cycles >= maxcycles then PyStep(m, Returned(()))
    else
      var c := PyTickTock(m);
      match c.outcome
      case Raised(e) => PyStep(c.m, Raised(e))
      case Returned(_) => PyRunLoop(c.m, maxcycles)
  }

  /** `Computer.run(maxcycles)`: reset, then cycle until the counter
   *  reaches `maxcycles` or a cycle raises. */
  function PyRun(m: PyMachine, maxcycles: int): PyStep<()>
  {
    PyRunLoop(PyReset(m), maxcycles)
  }

  /** A run that returns has counted exactly `maxcycles` cycles (none when
   *  `maxcycles` is not positive); one that raises has raised an
   *  `IndexError` below that count. */
  lemma PyRunCounts(m: PyMachine, maxcycles: int)
    ensures var s := PyRun(m, maxcycles);
      (s.outcome.Returned? ==> s.m.cycles == if maxcycles > 0 then maxcycles else 0) &&
      (s.outcome.Raised? ==> s.outcome.exception == IndexError && s.m.cycles < maxcycles)
  {
    hide PyTickTock;
    PyResetZeroes(m);
    PyRunLoopCounts(PyReset(m), maxcycles);
  }

  lemma {:induction false} PyRunLoopCounts(m: PyMachine, maxcycles: int)
    ensures var s := PyRunLoop(m, maxcycles);
      (s.outcome.Returned? ==> s.m.cycles == if m.cycles < maxcycles then maxcycles else m.cycles) &&
      (s.outcome.Raised? ==> s.outcome.exception == IndexError && m.cycles <= s.m.cycles < maxcycles)
    decreases maxcycles - m.cycles
  {
    hide PyTickTock;
    if m.cycles < maxcycles {
      var c := PyTickTock(m);
      if c.outcome.Returned? {
        PyRunLoopCounts(c.m, maxcycles);
      }
    }
  }

  /** The body of the loop of `Computer.loadrom` for line number `k`: the
   *  first eight characters go to byte `2k` and the rest to byte `2k + 1`,
   *  each read by `int(text, 2)`.  When the second half fails, the first
   *  byte stays stored. */
  function LoadLine(rom: seq<Byte>, line: string, k: nat): (r: Stored)
    ensures |r.mem| == |rom|
  {
    var split := if |line| < 8 then |line| else 8;
    match PyIntBase2(line[..split])
    case NotANumber => Stored(rom, Raised(ValueError))
    case Number(high) =>
      match StoreByte(rom, 2 * k, high)
      case Raised(e) => Stored(rom, Raised(e))
      case Returned(rom1) =>
        match PyIntBase2(line[split..])
        case NotANumber => Stored(rom1, Raised(ValueError))
        case Number(low) =>
          match StoreByte(rom1, 2 * k + 1, low)
          case Raised(e) => Stored(rom1, Raised(e))
          case Returned(rom2) => Stored(rom2, Returned(()))
  }

  /** The loop of `Computer.loadrom` from line `k` on, stopping at the
   *  first line that raises. */
  function PyLoadLines(rom: seq<Byte>, lines: seq<string>, k: nat): (r: Stored)
    requires k <= |lines|
    ensures |r.mem| == |rom|
    decreases |lines| - k
  {
    if k == |lines| then Stored(rom, Returned(()))
    else
      var loaded := LoadLine(rom, lines[k], k);
      if loaded.outcome.Raised? then loaded else PyLoadLines(loaded.mem, lines, k + 1)
  }

  /** `Computer.loadrom` on the lines of the file. */
  function PyLoadRom(m: PyMachine, lines: seq<string>): PyStep<()>
  {
    var stored := PyLoadLines(m.rom, lines, 0);
    PyStep(m.(rom := stored.mem), stored.outcome)
  }

  /** The numeral of a word splits into the numerals of its two bytes. */
  lemma BinaryBytes(w: Word)
    ensures Binary(w, 16) == Binary(w / 0x100, 8) + Binary(w % 0x100, 8)
  {
    BinarySplit(w, 8, 8);
    Pow2Widths();
  }

  /** A 15-digit numeral splits into eight digits of `w / 0x80` and seven
   *  of `w % 0x80`. */
  lemma BinaryFifteen(w: int)
    ensures Binary(w, 15) == Binary(w / 0x80, 8) + Binary(w % 0x80, 7)
    ensures Pow2(7) == 0x80 && Pow2(15) == 0x8000
  {
    BinarySplit(w, 8, 7);
    assert Pow2(7) == 0x80;
    Pow2Widths();
    Pow2Add(8, 7);
  }

  lemma {:induction false} BinarySplit(w: int, m: nat, n: nat)
    ensures Binary(w, m + n) == Binary(w / Pow2(n), m) + Binary(w % Pow2(n), n)
    decreases n
  {
    hide Binary, Pow2;
    if n == 0 {
      BinarySplitBase(w, m);
    } else {
      BinarySplitStep(w, m, n);
      BinarySplit(w / 2, m, n - 1);
    }
  }

  lemma BinarySplitBase(w: int, m: nat)
    ensures Binary(w, m + 0) == Binary(w / Pow2(0), m) + Binary(w % Pow2(0), 0)
  {
    assert Binary(w, m + 0) + [] == Binary(w, m + 0);
  }

  /** One step of `BinarySplit`: the lowest digit of `w` ends both the whole
   *  numeral and its low part, and the remaining digits are those of
   *  `w / 2`. */
  lemma BinarySplitStep(w: int, m: nat, n: nat)
    requires n > 0
    ensures var digit := [if w % 2 == 1 then '1' else '0'];
      Binary(w, m + n) == Binary(w / 2, m + (n - 1)) + digit &&
      Binary(w % Pow2(n), n) == Binary((w / 2) % Pow2(n - 1), n - 1) + digit &&
      w / Pow2(n) == (w / 2) / Pow2(n - 1)
  {
    var p := Pow2(n - 1);
    ModDouble(w, p);
    ModUnique(w % (2 * p), 2, (w / 2) % p, w % 2);
    ModUnique(w, 2 * p, (w / 2) / p, w % (2 * p));
  }

  /** The two halves of an assembled line read as the two bytes of its
   *  word. */
  lemma AssembledLineBytes(w: Word, eol: string)
    requires forall i :: 0 <= i < |eol| ==> IsPySpace(eol[i])
    ensures var line := Binary(w, 16) + eol;
      PyIntBase2(line[..8]) == Number(w / 0x100) && PyIntBase2(line[8..]) == Number(w % 0x100)
  {
    hide PyIntBase2, Binary, BinValue, Pow2;
    BinaryBytes(w);
    Pow2Widths();
    var line := Binary(w, 16) + eol;
    var high, low := Binary(w / 0x100, 8), Binary(w % 0x100, 8);
    assert line[..8] == high + [] && line[8..] == low + eol;
    PyIntOfNumeral(high, []);
    PyIntOfNumeral(low, eol);
    BinValueOfBinary(w / 0x100, 8);
    BinValueOfBinary(w % 0x100, 8);
  }

  /** The memory with bytes `i` and `i + 1` replaced. */
  function PutBytes(mem: seq<Byte>, i: nat, high: Byte, low: Byte): seq<Byte>
    requires i + 1 < |mem|
  {
    mem[i := high][i + 1 := low]
  }

  /** A line whose halves read as two bytes stores them at `2k` and
   *  `2k + 1` and lets the loop go on. */
  lemma LoadsLine(rom: seq<Byte>, line: string, k: nat, high: Byte, low: Byte)
    requires |line| >= 8 && 2 * k + 1 < |rom| <= 0x8000_0000_0000_0000
    requires PyIntBase2(line[..8]) == Number(high) && PyIntBase2(line[8..]) == Number(low)
    ensures LoadLine(rom, line, k) == Stored(PutBytes(rom, 2 * k, high, low), Returned(()))
  {
    hide PyIntBase2;
    assert (if |line| < 8 then |line| else 8) == 8;
    var rom1 := rom[2 * k := high];
    assert StoreByte(rom, 2 * k, high) == Returned(rom1);
    assert StoreByte(rom1, 2 * k + 1, low) == Returned(rom1[2 * k + 1 := low]);
    hide StoreByte;
  }

  /** The ROM with words `k` onwards stored big-endian at their byte
   *  addresses. */
  function StoreWords(rom: seq<Byte>, words: seq<Word>, k: nat): (r: seq<Byte>)
    requires k <= |words| && 2 * |words| <= |rom|
    ensures |r| == |rom|
    ensures forall j :: k <= j < |words| ==> WordAt(r, j) == words[j]
    ensures forall i :: 0 <= i < |rom| && (i < 2 * k || i >= 2 * |words|) ==> r[i] == rom[i]
    decreases |words| - k
  {
    if k == |words| then rom
    else
      var r := StoreWords(rom[2 * k := words[k] / 0x100][2 * k + 1 := words[k] % 0x100], words, k + 1);
      assert WordAt(r, k) == words[k];
      r
  }

  /** Storing words from `k` on stores word `k` and then the rest. */
  lemma StoreWordsStep(rom: seq<Byte>, words: seq<Word>, k: nat)
    requires k < |words| && 2 * |words| <= |rom|
    ensures StoreWords(rom, words, k) ==
      StoreWords(rom[2 * k := words[k] / 0x100][2 * k + 1 := words[k] % 0x100], words, k + 1)
  {
  }

  /** A ROM file in the assembler's format (each line the 16-digit numeral
   *  of a word, then white space such as its newline) of at most 32768
   *  lines loads completely and stores exactly those words: the two bytes
   *  of line `k` hold word `k`, and the rest of the ROM is untouched. */
  lemma {:induction false} AssembledFileLoads(rom: seq<Byte>, words: seq<Word>, ends: seq<string>, lines: seq<string>, k: nat)
    requires |rom| == 0x1_0000 && |words| == |ends| == |lines| <= 0x8000 && k <= |lines|
    requires forall j :: 0 <= j < |lines| ==> lines[j] == Binary(words[j], 16) + ends[j]
    requires forall j, i :: 0 <= j < |ends| && 0 <= i < |ends[j]| ==> IsPySpace(ends[j][i])
    ensures PyLoadLines(rom, lines, k) == Stored(StoreWords(rom, words, k), Returned(()))
    decreases |lines| - k
  {
    hide PyIntBase2, LoadLine, Binary, StoreByte, StoreWords;
    if k < |lines| {
      var w := words[k];
      var rom2 := rom[2 * k := w / 0x100][2 * k + 1 := w % 0x100];
      StoreWordsStep(rom, words, k);
      AssembledLineBytes(w, ends[k]);
      LoadsLine(rom, lines[k], k, w / 0x100, w % 0x100);
      AssembledFileLoads(rom2, words, ends, lines, k + 1);
    }
  }

  /** A `Computer` object.  The two bytearrays are distinct arrays. */
  class PyComputer {
    const rom: array<Byte>
    const ram: array<Byte>
    const cpu: PyCpu
    var cycles: int
    var PC: int
    var A: int

    ghost predicate Valid()
      reads this
    {
      rom != ram
    }

    function State(): PyMachine
      reads this, rom, ram, cpu
    {
      PyMachine(rom[..], ram[..], cpu.State(), cycles, PC, A)
    }

    /** `Computer.__init__`. */
    constructor Init()
      ensures Valid() && State() == PyInitial()
      ensures fresh(rom) && fresh(ram) && fresh(cpu)
    {
      rom := new Byte[0x1_0000](_ => 0);
      ram := new Byte[0x1_0000](_ => 0);
      cpu := new PyCpu.Init();
      cycles, PC, A := 0, 0, 0;
    }

    /** `Computer.reset`. */
    method Reset()
      requires Valid()
      modifies this, cpu
      ensures State() == PyReset(old(State()))
    {
      hide PyCpuTick;
      cycles := 0;
      var aluOut, writeM, oldA := cpu.Tick(0, 0, true);
      PC, A := cpu.Tock();
    }

    /** `Computer.ticktock`; a raise leaves the object as it was at that
     *  point. */
    method TickTock() returns (r: Outcome<PyTickOutput>)
      requires Valid()
      modifies this, ram, cpu
      ensures PyStep(State(), r) == PyTickTock(old(State()))
    {
      hide PyCpuTick, ReadWord, StoreWord, StoreByte;
      var fetched := ReadWordAt(rom, PC);
      if fetched.Raised? {
        return Raised(fetched.exception);
      }
      var instruction := fetched.value;
      var read := ReadWordAt(ram, A);
      if read.Raised? {
        return Raised(read.exception);
      }
      var inM := read.value;
      ghost var t := PyCpuTick(cpu.State(), instruction, inM, false);
      var aluOut, writeM, oldA := cpu.Tick(instruction, inM, false);
      if writeM {
        var stored := StoreWordAt(ram, oldA, aluOut);
        if stored.Raised? {
          return Raised(stored.exception);
        }
      }
      PC, A := cpu.Tock();
      cycles := cycles + 1;
      return Returned(PyTickOutput(aluOut, writeM, oldA));
    }

    /** `Computer.mmio_get`. */
    method MmioGet(addr: int) returns (r: Outcome<int>)
      ensures r == PyMmioGet(State(), addr)
    {
      r := ReadWordAt(ram, addr);
    }

    /** `Computer.mmio_set`. */
    method MmioSet(addr: int, val: int) returns (r: Outcome<()>)
      requires Valid()
      modifies ram
      ensures PyStep(State(), r) == PyMmioSet(old(State()), addr, val)
    {
      r := StoreWordAt(ram, addr, val);
    }

    /** `Computer.run(maxcycles)`. */
    method Run(maxcycles: int) returns (r: Outcome<()>)
      requires Valid()
      modifies this, ram, cpu
      ensures PyStep(State(), r) == PyRun(old(State()), maxcycles)
    {
      hide PyTickTock;
      Reset();
      while cycles < maxcycles
        invariant Valid()
        invariant PyRunLoop(State(), maxcycles) == PyRun(old(State()), maxcycles)
        decreases maxcycles - cycles
      {
        ghost var before := State();
        var ticked := TickTock();
        if ticked.Raised? {
          return Raised(ticked.exception);
        }
        assert PyRunLoop(before, maxcycles) == PyRunLoop(State(), maxcycles);
      }
      r := Returned(());
    }

    /** `Computer.loadrom` on the lines of the file. */
    method LoadRom(lines: seq<string>) returns (r: Outcome<()>)
      requires Valid()
      modifies rom
      ensures PyStep(State(), r) == PyLoadRom(old(State()), lines)
    {
      hide PyIntBase2;
      var k := 0;
      while k < |lines|
        invariant k <= |lines|
        invariant PyLoadLines(rom[..], lines, k) == PyLoadLines(old(rom[..]), lines, 0)
      {
        var line := lines[k];
        var split := if |line| < 8 then |line| else 8;
        var high := PyIntBase2(line[..split]);
        if high.NotANumber? {
          return Raised(ValueError);
        }
        var stored := StoreByteAt(rom, 2 * k, high.value);
        if stored.Raised? {
          return stored;
        }
        var low := PyIntBase2(line[split..]);
        if low.NotANumber? {
          return Raised(ValueError);
        }
        stored := StoreByteAt(rom, 2 * k + 1, low.value);
        if stored.Raised? {
          return stored;
        }
        k := k + 1;
      }
      r := Returned(());
    }
  }

  /** `mem[addr * 2] << 8 | mem[addr * 2 + 1]` on a bytearray. */
  method ReadWordAt(mem: array<Byte>, addr: int) returns (r: Outcome<int>)
    ensures r == ReadWord(mem[..], addr)
  {
    var n := mem.Length;
    if !ValidIndex(n, addr * 2) {
      return Raised(IndexError);
    }
    var high: int := mem[Slot(n, addr * 2)];
    if !ValidIndex(n, addr * 2 + 1) {
      return Raised(IndexError);
    }
    var low := mem[Slot(n, addr * 2 + 1)];
    return Returned(high * 0x100 + low);
  }

  /** `mem[i] = v` on a bytearray. */
  method StoreByteAt(mem: array<Byte>, i: int, v: int) returns (r: Outcome<()>)
    modifies mem
    ensures var s := StoreByte(old(mem[..]), i, v);
      match s
      case Returned(after) => r == Returned(()) && mem[..] == after
      case Raised(e) => r == Raised(e) && mem[..] == old(mem[..])
  {
    if !FitsIndex(i) {
      return Raised(IndexError);
    }
    if !(0 <= v < 0x100) {
      return Raised(ValueError);
    }
    if !ValidIndex(mem.Length, i) {
      return Raised(IndexError);
    }
    mem[Slot(mem.Length, i)] := v;
    return Returned(());
  }

  /** `mem[addr * 2] = (val & 0xffff) >> 8; mem[addr * 2 + 1] = val & 0xff`
   *  on a bytearray. */
  method StoreWordAt(mem: array<Byte>, addr: int, val: int) returns (r: Outcome<()>)
    modifies mem
    ensures Stored(mem[..], r) == StoreWord(old(mem[..]), addr, val)
  {
    r := StoreByteAt(mem, addr * 2, Mask16(val) / 0x100);
    if r.Raised? {
      return;
    }
    r := StoreByteAt(mem, addr * 2 + 1, Mask8(val));
  }
}
