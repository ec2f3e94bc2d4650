/** The error vocabulary declared in hackcpu.h.
 *
 *  `computer_ticktock` returns a C `int` used as a bit mask, built with `|=`
 *  from the three `ERR_*` constants.  The mask is a 32-bit bit-vector here.
 *  The header's `CPU` and `Computer` structs are the fields of the classes
 *  `HackCpu.Cpu` and `HackComputer.Computer`.
 */
module HackErrors {

  /** The `int` error mask of `computer_ticktock`. */
  type ErrorBits = bv32

  const ErrReadRom: ErrorBits := 0x1
  const ErrReadRam: ErrorBits := 0x2
  const ErrWriteRam: ErrorBits := 0x4

  /** Each constant is one bit, and no two share a bit. */
  lemma ErrorBitsAreDistinctBits()
    ensures ErrReadRom != 0 && ErrReadRom & (ErrReadRom - 1) == 0
    ensures ErrReadRam != 0 && ErrReadRam & (ErrReadRam - 1) == 0
    ensures ErrWriteRam != 0 && ErrWriteRam & (ErrWriteRam - 1) == 0
    ensures ErrReadRom & ErrReadRam == 0 && ErrReadRom & ErrWriteRam == 0
    ensures ErrReadRam & ErrWriteRam == 0
  {
  }

  /** The mask that ORs in the constants of the errors that occurred; each
   *  error can be read back from it, and it is zero exactly when none did. */
  function ErrorMask(readRom: bool, readRam: bool, writeRam: bool): (mask: ErrorBits)
    ensures (mask & ErrReadRom != 0) == readRom
    ensures (mask & ErrReadRam != 0) == readRam
    ensures (mask & ErrWriteRam != 0) == writeRam
    ensures mask == 0 <==> !readRom && !readRam && !writeRam
    ensures mask & !(ErrReadRom | ErrReadRam | ErrWriteRam) == 0
  {
    (if readRom then ErrReadRom else 0)
    | (if readRam then ErrReadRam else 0)
    | (if writeRam then ErrWriteRam else 0)
  }
}
