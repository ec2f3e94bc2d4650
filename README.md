# Hack CPU emulator, modelled in Dafny

This project models the emulator core for the Hack computer of the
nand2tetris course. It covers the C implementation (`hackcpu.c`,
`hackcpu.h`) and its Python port (`python/hackcpu.py`).

The Hack CPU has three 16-bit registers: A, D and PC. Its clock has two
phases:

- `cpu_tick` decodes an instruction, runs the ALU, commits A, D and PC, and
  reports the memory write the instruction asks for.
- `cpu_tock` exports PC and A, which are the addresses of the next
  instruction fetch and data read.

A `Computer` wires the CPU to a ROM and a RAM. It also keeps a cycle counter
and shadow copies of PC and A. Each `computer_ticktock` cycle does a
bounds-checked fetch, a tick, a bounds-checked write and a tock. It returns
an error bit mask. `computer_run` resets the machine and then cycles until a
limit or an error. `computer_loadrom` reads a `.hack` text file line by line
into the ROM.

The Python port computes on unbounded integers and masks with `& 0xffff`.
It stores each word big-endian in two bytes of a 65536-byte `bytearray`. It
checks no bounds, so a bad address raises `IndexError` out of the method.

## Modules

| file | module | models |
|---|---|---|
| `words.dfy` | `HackWord` | 16-bit words, C truncation (`Wrap16`, `Complement16`, `And16`), Python masks (`Mask16`, `Mask8`) and bitwise AND on any integer |
| `hackcpu_h.dfy` | `HackErrors` | the `ERR_*` bit mask of `hackcpu.h` |
| `isa.dfy` | `HackIsa` | instruction fields, plus the comp and jump tables of the Hack machine language, used as the reference meaning |
| `alu.dfy` | `HackAlu` | the C `ALU` |
| `cpu.dfy` | `HackCpu` | `cpu_init`, `cpu_tick` and `cpu_tock`; the class `Cpu` |
| `romline.dfy` | `HackRomLine` | one ROM line: cut at CR/LF, then `strtoul(line, &err, 2)`, reject leftovers, mask to 16 bits |
| `computer.dfy` | `HackComputer` | `computer_init`, `_reset`, `_ticktock`, `_mmio_get`/`_set`, `_run` and the `_loadrom` line loop; the class `Computer` |
| `py_cpu.dfy` | `PyHackCpu` | the Python `ALU`, `CPU.tick` and `CPU.tock`; the class `PyCpu` |
| `py_intparse.dfy` | `PyIntLiteral` | Python `int(text, 2)` |
| `py_computer.dfy` | `PyHackComputer` | the Python `Computer` on bytearrays, with `IndexError`/`ValueError` as outcomes; the class `PyComputer` |
| `agreement.dfy` | `HackAgreement` | how the C and the Python programs correspond, and where they part ways |

Each stateful operation follows the same pattern. It is a function on
values (`CpuTick`, `MachineTickTock`, `PyTickTock`, ...), and a class
method that updates fields and arrays in place. Each method is proved to
leave exactly the state that function describes. The properties are then
proved about the functions.

Points where the model follows the code as written:

- An out-of-range write in `computer_ticktock` sets `ERR_READ_RAM` (0x2) at
  `hackcpu.c:202`. `ERR_WRITE_RAM` (0x4) is declared at `hackcpu.h:27` but
  nothing sets it. `TickTockErrors` states that the mask never contains 0x4.
  `WriteErrorFollowsReadError` shows that, while the shadows are in sync,
  a bad write always comes with a bad read. So 0x2 is set in that cycle
  anyway.
- In C an empty line loads instruction 0 (`EmptyLineLoadsZero`). `strtoul`
  consumes nothing and leaves `err` at the start of the line. That is the
  terminating NUL, so the `*err` test at `hackcpu.c:281` passes. Python
  raises `ValueError` on the same line (`BlankLineDiverges`).
- The two loaders also read other lines differently. A trailing blank makes
  C reject the line, while Python loads it (`TrailingBlankDiverges`). A line
  of 15 digits is one number to C, but Python splits it into eight and seven
  digits (`FifteenDigitLineDiverges`).
- `computer_run` treats `maxcycles == 0` as "no limit". It compares the
  counter with `maxcycles` converted to `unsigned long long`, so a negative
  limit is at least 2^63 (`NegativeLimitIsHuge`). Python's `run` stops
  straight after the reset for any limit of 0 or less
  (`NonPositiveLimitDiverges`).

## Model

| member | source | states |
|---|---|---|
| HackErrors.ErrorBitsAreDistinctBits | hackcpu.h:25-27 | each `ERR_*` constant is a single non-zero bit, and no two share a bit |
| HackErrors.ErrorMask | hackcpu.c:177-202 | the OR of the error constants: each flag can be read back from the mask, the mask is 0 exactly when no error happened, and it has no other bits |
| HackIsa.DecodeEncodeC | hackcpu.c:35-39 | decoding a C-instruction as the assembler encodes it recovers its a-bit, comp, dest and jump fields |
| HackIsa.DecodeLiteral | hackcpu.c:35 | a word is an A-instruction exactly when it is a literal below 0x8000 |
| HackIsa.Signed | hackcpu.c:130 | the two's-complement reading of a word lies in [-2^15, 2^15) and wraps back to the word |
| HackAlu.Controls | hackcpu.c:112-125 | decodes the six control bits zx, nx, zy, ny, f, no; `ControlsReassemble` states what they hold |
| HackAlu.ControlsReassemble | hackcpu.c:112-125 | the control bits, weighted 32, 16, 8, 4, 2 and 1, add up to the comp code's low six bits, so they are exactly bits 5 down to 0 and two codes that differ there never share their controls |
| HackAlu.Alu | hackcpu.c:108-131 | `zr` holds iff the output is 0; `ng` holds iff the output is at least 0x8000, that is, iff it is negative as a signed word |
| HackAlu.TableControls | hackcpu.c:112-127 | the control bits of each of the 18 comp-table codes |
| HackAlu.AluImplementsCompTable | hackcpu.c:108-131 | for every x and y, the ALU computes the Hack machine-language meaning of each comp-table code, including 0x30 = y, 0x0C = x, 0x2A = 0 and 0x02 = x + y mod 2^16; zeroing before negating and negating the output last are what make them hold |
| HackAlu.OutputNegationIsLast | hackcpu.c:124-127 | setting the no bit complements the final output and changes nothing else |
| HackCpu.CpuTick | hackcpu.c:33-79 | defines one `cpu_tick` on register values; `AInstructionStep`, `CInstructionStep`, `NextPC` and `ResetOnlyForcesPC` state its properties, and `WriteTargetsReadWord` where the write goes |
| HackCpu.JumpTakenMeansCondition | hackcpu.c:50-55 | the flag test on jmp, zr and ng holds exactly when the Hack jump condition holds on the output read as a signed number |
| HackCpu.AInstructionStep | hackcpu.c:57-74 | `@literal` for a literal below 0x8000 loads A with the literal, keeps D, requests no write, and sets PC to PC + 1 mod 2^16, or to 0 on reset |
| HackCpu.NextPC | hackcpu.c:68-74 | the new PC is 0 on reset; otherwise it is the old A when a C-instruction's jump condition holds, even if the instruction rewrites A; otherwise it is PC + 1 mod 2^16 |
| HackCpu.ResetOnlyForcesPC | hackcpu.c:57-74 | reset changes only the PC: A, D and the write request are those of the same tick without reset |
| HackCpu.CInstructionStep | hackcpu.c:33-79 | an assembled C-instruction stores the comp-table value in the dest registers and in `outM`, and jumps to the old A exactly under the Hack jump condition |
| HackCpu.Cpu.Init | hackcpu.c:12-17 | all three registers are 0 |
| HackCpu.Cpu.Tick | hackcpu.c:33-79 | the fields become `CpuTick`'s next registers, and the out-parameters are its write request |
| HackCpu.Cpu.Tock | hackcpu.c:90-94 | returns PC and A |
| HackComputer.Initial | hackcpu.c:139-149 | memories of the requested sizes, all zero; registers, shadows and counter all zero |
| HackComputer.MachineReset | hackcpu.c:151-160 | defines `computer_reset` on a machine value; `ResetZeroes` states its effect |
| HackComputer.ResetZeroes | hackcpu.c:151-160 | after a reset the counter, PC, A and both shadows are 0; D, ROM and RAM are unchanged |
| HackComputer.MachineTickTock | hackcpu.c:171-218 | defines one `computer_ticktock` cycle on a machine value; `TickTockErrors` and `TickTockEffect` state its properties |
| HackComputer.TickTockErrors | hackcpu.c:179-203 | the mask has `ERR_READ_ROM` iff PC is past the ROM, `ERR_READ_RAM` iff A is past the RAM or an enabled write is, and never `ERR_WRITE_RAM` |
| HackComputer.TickTockEffect | hackcpu.c:171-218 | the CPU ticks on the fetched word (0 when out of range); only the addressed RAM word changes, and only for an enabled in-range write; the ROM never changes; the counter goes up by 1 mod 2^64; the shadows equal the CPU's PC and A |
| HackComputer.WriteErrorFollowsReadError | hackcpu.c:186-203 | with the shadows in sync, a write past the RAM comes with a read past the RAM in the same cycle |
| HackComputer.WriteTargetsReadWord | hackcpu.c:179-203 | with the shadows in sync, a cycle writes back to the RAM word it read as `inM`: the write address is the shadow A, an enabled in-range write leaves the ALU output there, and every other RAM word is kept |
| HackComputer.MachineMmioGet | hackcpu.c:224-231 | defines `computer_mmio_get`; `MmioSetThenGet` states its properties |
| HackComputer.MachineMmioSet | hackcpu.c:233-240 | defines `computer_mmio_set`; `MmioSetThenGet` states its properties |
| HackComputer.MmioSetThenGet | hackcpu.c:224-240 | a stored word reads back; no other address changes; a store past the RAM changes nothing |
| HackComputer.RunLoop | hackcpu.c:249-255 | defines the loop of `computer_run` with a fuel bound; `RunLoopStops`, `ErrorHaltsRun`, `IgnoredErrorContinues` and `RunLoopReachesLimit` state its properties |
| HackComputer.MachineRun | hackcpu.c:242-258 | defines `computer_run` as a reset followed by `RunLoop`; `RunReachesLimit` states its properties |
| HackComputer.NegativeLimitIsHuge | hackcpu.c:242-249 | a negative `maxcycles`, converted to `unsigned long long`, is a limit of at least 2^63 |
| HackComputer.RunLoopReachesLimit | hackcpu.c:249-255 | with a non-zero limit and enough fuel, the loop never runs out of fuel, and when it finishes the counter equals the limit |
| HackComputer.RunReachesLimit | hackcpu.c:242-258 | `computer_run` with a non-zero limit finishes with exactly that many cycles, unless it exits on an error |
| HackComputer.UnboundedRunNeverFinishes | hackcpu.c:249-255 | with `maxcycles == 0` the loop never finishes by itself |
| HackComputer.RunLoopStops | hackcpu.c:249-255 | the loop halts early only on a non-zero mask with errors not ignored (the converse is `ErrorHaltsRun`); ROM and RAM size are unchanged |
| HackComputer.ErrorHaltsRun | hackcpu.c:249-254 | below the limit, a cycle with a non-zero mask halts a run that does not ignore errors, with that mask and the machine after the cycle; with `RunLoopStops`, the loop halts iff a cycle reports an error and errors are not ignored |
| HackComputer.IgnoredErrorContinues | hackcpu.c:249-255 | with errors ignored, a cycle with a non-zero mask is followed by the next cycle as if there had been no error |
| HackComputer.LoadFrom | hackcpu.c:278-287 | the ROM keeps its size; a rejected line is reported by its 1-based number within the file |
| HackComputer.LoadFromStores | hackcpu.c:278-287 | every line before the first bad one is stored at its own address and parses to that word; nothing else in the ROM changes; the reported line does not parse |
| HackComputer.Computer.Init | hackcpu.c:139-149 | the arrays and fields hold `Initial(romsize, ramsize)` |
| HackComputer.Computer.Reset | hackcpu.c:151-160 | the state becomes `MachineReset` of the old state |
| HackComputer.Computer.TickTock | hackcpu.c:171-218 | the new state, the error mask and the out-parameters are `MachineTickTock` of the old state |
| HackComputer.Computer.ReadOperands | hackcpu.c:179-191 | the fetched instruction and data word, 0 when out of range, and the error bits for the two reads |
| HackComputer.Computer.WriteBack | hackcpu.c:197-203 | an enabled in-range write stores one word; an enabled out-of-range write changes nothing and adds `ERR_READ_RAM` |
| HackComputer.Computer.MmioGet | hackcpu.c:224-231 | the RAM word, or 0 past the end |
| HackComputer.Computer.MmioSet | hackcpu.c:233-240 | the state becomes `MachineMmioSet` of the old state |
| HackComputer.Computer.Run | hackcpu.c:242-258 | the final state and status are `MachineRun` of the old state |
| HackComputer.Computer.LoadRom | hackcpu.c:278-287 | the ROM and the result are `LoadFrom` of the old ROM and the lines |
| HackRomLine.CutAtNewline | hackcpu.c:279 | the longest prefix of the line without CR, LF or NUL |
| HackRomLine.StrtoulBase2 | hackcpu.c:280 | `err` never points past the end of the line |
| HackRomLine.ParseRomLine | hackcpu.c:279-285 | a rejected line carries the unread text, which is non-empty and a tail of the cut line |
| HackRomLine.BinValueOfBinary | hackcpu.c:280 | reading back an n-digit numeral gives the number it was written from |
| HackRomLine.StrtoulDigits | hackcpu.c:280 | `strtoul` reads up to 64 binary digits whole, to their value |
| HackRomLine.DigitsKeepLow16Bits | hackcpu.c:279-285 | a line of up to 64 binary digits, followed by nothing, LF or CR LF, loads the low 16 bits of its value |
| HackRomLine.AssembledLineLoads | hackcpu.c:279-285 | round trip: the 16-digit numeral of a word, with or without a line ending, loads that word |
| HackRomLine.CutBeforeLineEnd | hackcpu.c:279 | cutting text without CR, LF or NUL, followed by nothing, LF or CR LF, leaves exactly that text |
| HackRomLine.DigitsThenTextRejected | hackcpu.c:279-283 | binary digits followed by text that is neither a digit nor a line end reject the line, and the error shows exactly that text |
| HackRomLine.EmptyLineLoadsZero | hackcpu.c:279-285 | an empty line loads instruction 0 |
| HackRomLine.NoDigitsRejectsLine | hackcpu.c:280-283 | a line with no binary digit after the white space and sign is rejected whole |
| PyIntLiteral.PyIntBase2 | python/hackcpu.py:92-93 | a number `int(s, 2)` returns has fewer than 2^len(s) in absolute value |
| PyIntLiteral.PyIntOfNumeral | python/hackcpu.py:92-93 | binary digits followed by white space read as their value |
| PyIntLiteral.PyIntRejectsBlank | python/hackcpu.py:92-93 | empty or all-white-space text raises `ValueError` |
| PyIntLiteral.PyIntNegative | python/hackcpu.py:92-93 | a leading minus sign negates the value |
| PyIntLiteral.PyIntPrefixed | python/hackcpu.py:92-93 | a `0b` prefix does not change the value |
| PyHackCpu.PyAlu | python/hackcpu.py:54-70 | for any integer inputs the output is in [0, 0xFFFF]; `zr` is `out == 0`; `ng` is 0 or 0x8000 and non-zero iff bit 15 of the output is set |
| PyHackCpu.PyCpuTick | python/hackcpu.py:11-49 | defines one `CPU.tick` on register values; `PyTickPC`, `PyAInstructionStep` and `PyCpuTickAgrees` state its properties |
| PyHackCpu.PyJumpMeansCondition | python/hackcpu.py:26-31 | the jump test on `zr` and the integer `ng` holds exactly when the Hack jump condition holds on the ALU output read as a signed number |
| PyHackCpu.PyTickPC | python/hackcpu.py:42-49 | PC becomes 0 on reset, the old A when a C-instruction's Hack jump condition holds on the ALU output, otherwise (PC + 1) % 65536, and stays a word; the tick returns the old A, and `writeM` holds iff it is a C-instruction with dest bit 0 |
| PyHackCpu.PyAInstructionStep | python/hackcpu.py:33-40 | an A-instruction loads A with itself, keeps D and requests no write |
| PyHackCpu.PyCpu.Init | python/hackcpu.py:5-9 | all three registers are 0 |
| PyHackCpu.PyCpu.Tick | python/hackcpu.py:11-49 | the fields become `PyCpuTick`'s next registers, and the returned tuple is its output |
| PyHackCpu.PyCpu.Tock | python/hackcpu.py:51-52 | returns PC and A |
| PyHackComputer.PyInitial | python/hackcpu.py:78-86 | two zeroed bytearrays of 65536 bytes; registers, counter, PC and A all zero |
| PyHackComputer.ReadByte | python/hackcpu.py:115-116 | defines `mem[i]` for one byte, negative indices counting from the end, `IndexError` outside; `ReadWord` states the properties of the two reads |
| PyHackComputer.ReadWord | python/hackcpu.py:115-116 | succeeds iff both byte indices are valid, and then gives a 16-bit value; otherwise raises `IndexError` |
| PyHackComputer.StoreByte | python/hackcpu.py:121-122 | `mem[i] = v` succeeds iff i fits a `Py_ssize_t`, v is a byte and i is a valid index; `ValueError` exactly for a bad value; on success only the designated byte changes, and it holds v |
| PyHackComputer.StoreWord | python/hackcpu.py:121-122 | the bytearray keeps its length, and a failing store raises only `IndexError` |
| PyHackComputer.PyReset | python/hackcpu.py:102-105 | defines `Computer.reset`; `PyResetZeroes` states its effect |
| PyHackComputer.PyResetZeroes | python/hackcpu.py:102-105 | after `reset` the counter, PC, A and the CPU's A and PC are 0; D and both bytearrays are unchanged |
| PyHackComputer.PyTickTock | python/hackcpu.py:114-129 | a completed cycle adds exactly 1 to the counter; one that raises raises `IndexError` and leaves the counter, PC and A; the ROM never changes, and the RAM keeps its size |
| PyHackComputer.PyMmioGet | python/hackcpu.py:107-108 | defines `mmio_get` as a word read from the RAM; `PyMmioSetThenGet` and `MmioAgrees` state its properties |
| PyHackComputer.PyMmioSet | python/hackcpu.py:110-112 | defines `mmio_set` as a word store into the RAM; `PyMmioSetThenGet` and `MmioAgrees` state its properties |
| PyHackComputer.PyMmioSetThenGet | python/hackcpu.py:107-112 | `mmio_set(a, v)` then `mmio_get(a)` gives `v & 0xffff`; no other byte changes; the only failure is an `IndexError` before any byte is written |
| PyHackComputer.PyRunLoop | python/hackcpu.py:133-134 | the loop never changes the ROM or the RAM size |
| PyHackComputer.PyRun | python/hackcpu.py:131-136 | defines `run` as a reset followed by `PyRunLoop`; `PyRunCounts` states its properties |
| PyHackComputer.PyRunCounts | python/hackcpu.py:131-136 | a run that returns ends with `cycles == max(maxcycles, 0)`; one that raises raises `IndexError` below the limit |
| PyHackComputer.LoadLine | python/hackcpu.py:91-94 | a line's two stores keep the ROM's length, and so does the raise of either half |
| PyHackComputer.PyLoadLines | python/hackcpu.py:90-94 | the loop keeps the ROM's length |
| PyHackComputer.PyLoadRom | python/hackcpu.py:88-95 | defines `loadrom` on the lines of the file; `AssembledFileLoads` and `AssembledRomAgrees` state its properties |
| PyHackComputer.AssembledLineBytes | python/hackcpu.py:92-93 | the first 8 characters of an assembled line read as the word's high byte, and the rest as its low byte |
| PyHackComputer.LoadsLine | python/hackcpu.py:92-94 | a line whose halves read as two bytes stores them at bytes 2k and 2k + 1 and returns normally |
| PyHackComputer.AssembledFileLoads | python/hackcpu.py:88-95 | a file of at most 32768 assembled lines loads completely; byte pair k holds word k, and the rest of the ROM is unchanged |
| PyHackComputer.PyComputer.Init | python/hackcpu.py:78-86 | the object holds `PyInitial()` |
| PyHackComputer.PyComputer.Reset | python/hackcpu.py:102-105 | the state becomes `PyReset` of the old state |
| PyHackComputer.PyComputer.TickTock | python/hackcpu.py:114-129 | the state and the outcome are `PyTickTock` of the old state, at the raise when one occurs |
| PyHackComputer.PyComputer.MmioGet | python/hackcpu.py:107-108 | the outcome is `PyMmioGet` of the state |
| PyHackComputer.PyComputer.MmioSet | python/hackcpu.py:110-112 | the state and the outcome are `PyMmioSet` of the old state |
| PyHackComputer.PyComputer.Run | python/hackcpu.py:131-136 | the state and the outcome are `PyRun` of the old state |
| PyHackComputer.PyComputer.LoadRom | python/hackcpu.py:88-95 | the state and the outcome are `PyLoadRom` of the old state and the lines |
| PyHackComputer.ReadWordAt | python/hackcpu.py:115-116 | reading a word from a bytearray gives `ReadWord` of its contents |
| PyHackComputer.StoreByteAt | python/hackcpu.py:121 | the bytearray becomes what `StoreByte` gives, or stays as it was when that raises |
| PyHackComputer.StoreWordAt | python/hackcpu.py:121-122 | the bytearray and the outcome are `StoreWord` of the old contents |
| HackAgreement.MaskComplement | python/hackcpu.py:59 | `~v & 0xffff` on a word is the C `uint16_t` complement |
| HackAgreement.PyOperandAgrees | python/hackcpu.py:56-63 | zeroing and negating an operand gives the same word in both programs |
| HackAgreement.PyStagesAgree | python/hackcpu.py:54-66 | for every setting of the six control bits, the Python ALU output equals the C ALU output |
| HackAgreement.PyAluAgrees | python/hackcpu.py:54-70 | on words, Python's `ALU` gives C's output and zero flag, and a non-zero `ng` exactly when C's `ng` is set |
| HackAgreement.PyCpuTickAgrees | python/hackcpu.py:11-49 | `CPU.tick` reaches the same registers as `cpu_tick`, and returns C's `(outM, writeM, addressM)` |
| HackAgreement.ReadWordAgrees | python/hackcpu.py:115-116 | reading a word of a 32768-word bytearray gives the C word, and raises `IndexError` exactly where C's bounds check fails |
| HackAgreement.StoreWordAgrees | python/hackcpu.py:121-122 | storing an in-range word keeps the bytearray matching the C array after `ram[addr] = val` |
| HackAgreement.InitialAgrees | python/hackcpu.py:78-86 | `Computer()` corresponds to `computer_init(c, 32768, 32768)` |
| HackAgreement.ResetAgrees | python/hackcpu.py:102-105 | the two resets keep corresponding states corresponding |
| HackAgreement.TickTockAgrees | python/hackcpu.py:114-129 | from corresponding states, Python raises (an `IndexError`, changing nothing) exactly when C reports an error; otherwise both reach corresponding states and report the same write |
| HackAgreement.CycleAgrees | python/hackcpu.py:114-129 | with both fetches in range, the Python cycle returns and matches the C cycle |
| HackAgreement.RunLoopAgrees | python/hackcpu.py:133-134 | with a positive limit and errors not ignored, C halts exactly when Python raises, and finished runs end in corresponding states |
| HackAgreement.RunAgrees | python/hackcpu.py:131-136 | the same for `run` and `computer_run` from corresponding states |
| HackAgreement.NonPositiveLimitDiverges | python/hackcpu.py:131-134 | for a limit of 0 or less, Python's `run` returns right after the reset, while C's loop goes on |
| HackAgreement.MmioAgrees | python/hackcpu.py:107-112 | inside the RAM, `mmio_get` and `mmio_set` agree with C; past it, C reads 0 and ignores the store, while Python raises `IndexError` and changes nothing |
| HackAgreement.AssembledRomAgrees | python/hackcpu.py:88-95 | an assembled ROM file loads completely in both programs; the C ROM holds exactly the file's words, and the Python ROM holds the same words |
| HackAgreement.BlankLineDiverges | python/hackcpu.py:91-93 | a blank line loads 0 in C but raises `ValueError` in Python, leaving the ROM unchanged |
| HackAgreement.TrailingBlankDiverges | python/hackcpu.py:91-93 | an assembled word followed by a blank is rejected by C, which shows the blank, while Python stores the word's two bytes and goes on |
| HackAgreement.FifteenDigitLineDiverges | python/hackcpu.py:91-93 | a 15-digit line loads its value w in C, while Python stores `w / 0x80` and `w % 0x80` as the two bytes; the two words agree iff w < 0x80 |

## Left out

- Debug tracing (`fprintf` and `print` under `debug`) and the error messages: they do not change the state.
- `dump`, `computer_loadram`, `Computer.loadram` and the file opening in the two `loadrom`s: this is file I/O. The loaders are given the lines of the file.
- `exit(1)` in `computer_run` is the result `Halted(error)`. `exit(2)` on a bad ROM line is the result `BadLine`.
- `fgets` reads at most 99 characters at a time: a longer line would arrive as several lines. The model takes the lines as `fgets` returns them.
- The `0b` prefix that C23 versions of `strtoul` accept in base 2 is not modelled.
- The Unicode decimal digits that Python's `int()` accepts besides ASCII `0` and `1` are not modelled.
- Text-mode newline translation when Python reads the file is not modelled.
- `calloc` failure is not modelled.
- The SDL window, keyboard mapping, real-time pacing, hackio.c, hackmain.c and the `argparse` entry point are not part of this model.
- HackComputer.RunLoop: simulates at most `fuel` cycles and reports `OutOfFuel` beyond that. The C loop has no such bound, and with `maxcycles == 0` it runs forever. `RunLoopReachesLimit` shows that enough fuel always reaches the limit.
- HackComputer.Computer.Run: has the same `fuel` bound as `RunLoop`.
- HackComputer.Computer.LoadRom: requires the file to fit the ROM. `hackcpu.c:285` has no bounds check and writes past the array otherwise, which is undefined behaviour.
- HackAgreement.TickTockAgrees: requires the C counter to be below 2^64 - 1. At that value C wraps to 0, while Python keeps counting.
- HackAgreement.RunLoopAgrees: is stated only for a positive limit with errors not ignored. Every other case is a divergence, given by `NonPositiveLimitDiverges` or by C going on after an ignored error.
- HackAgreement.RunAgrees: has the same restriction as `RunLoopAgrees`.
- Malformed ROM lines other than a blank line, a trailing blank or a 15-digit line are modelled in both loaders, but no lemma relates the two readings. These are lines with leading blanks, a sign, 17 or more digits, or an `_` or `0b` inside a half.
- Aliasing between the ROM and the RAM arrays is excluded by `Valid()`. In both programs they are separate allocations.
