/** Fixed-width integer vocabulary shared by the C and the Python emulator.
 *
 *  Both programs compute on unsigned 16-bit words.  The C program stores them
 *  in `uint16_t`, so every assignment truncates implicitly; the Python program
 *  keeps unbounded `int`s and masks with `& 0xffff` by hand.  Words are
 *  therefore integers here, with the truncation and the masks written out, so
 *  that the two programs can be compared value for value.
 *
 *  Dafny's `/` and `%` with a positive divisor round towards minus infinity,
 *  like Python's `//` and `%`, and like two's-complement bit extraction: for
 *  every integer `n`, `n / 2^k % 2` is bit `k` of `n`.  On the non-negative
 *  values the C program shifts and masks they agree with C as well.
 */
module HackWord {

  /** C `uint16_t`: registers, instructions and memory words. */
  type Word = x: int | 0 <= x < 0x1_0000

  /** One element of a Python `bytearray`. */
  type Byte = x: int | 0 <= x < 0x100

  /** C `unsigned long long`: the cycle counter. */
  type U64 = x: int | 0 <= x < 0x1_0000_0000_0000_0000

  /** C `int`. */
  type Int32 = x: int | -0x8000_0000 <= x < 0x8000_0000


  function Pow2(n: nat): (p: nat)
    ensures p >= 1
  {
    if n == 0 then 1 else 2 * Pow2(n - 1)
  }

  lemma {:induction false} Pow2Add(a: nat, b: nat)
    ensures Pow2(a + b) == Pow2(a) * Pow2(b)
  {
    if a > 0 {
      Pow2Add(a - 1, b);
    }
  }

  lemma Pow2Widths()
    ensures Pow2(8) == 0x100 && Pow2(16) == 0x1_0000
  {
    assert Pow2(4) == 16;
    Pow2Add(4, 4);
    Pow2Add(8, 8);
  }

  /** `n & mask != 0` for a single-bit `mask` (a power of two). */
  predicate HasBit(n: int, mask: nat)
    requires mask > 0
  {
    n / mask % 2 == 1
  }

  /** Storing an `int` into a `uint16_t`: C keeps the low 16 bits. */
  function Wrap16(n: int): (w: Word)
    ensures n - w == (n / 0x1_0000) * 0x1_0000
  {
    n % 0x1_0000
  }

  /** C `~x` stored back into a `uint16_t`. */
  function Complement16(x: Word): (r: Word)
    ensures r + x == 0xFFFF
  {
    0xFFFF - x
  }

  /** The low `n` bits of `x & y`, bit by bit from the least significant one.
   *  On negative operands it follows two's complement, as Python's `&` does. */
  function BitAnd(x: int, y: int, n: nat): (r: nat)
    ensures r < Pow2(n)
    decreases n
  {
    if n == 0 then 0
    else 2 * BitAnd(x / 2, y / 2, n - 1) + (if x % 2 == 1 && y % 2 == 1 then 1 else 0)
  }

  /** The low `n` bits of `x | y`; the reference meaning of the ALU's OR. */
  function BitOr(x: int, y: int, n: nat): (r: nat)
    ensures r < Pow2(n)
    decreases n
  {
    if n == 0 then 0
    else 2 * BitOr(x / 2, y / 2, n - 1) + (if x % 2 == 1 || y % 2 == 1 then 1 else 0)
  }

  lemma {:induction false} BitAndCommutes(x: int, y: int, n: nat)
    ensures BitAnd(x, y, n) == BitAnd(y, x, n)
    decreases n
  {
    if n > 0 {
      BitAndCommutes(x / 2, y / 2, n - 1);
    }
  }

  /** Splitting `x mod 2p` into its lowest bit and the rest. */
  lemma ModDouble(x: int, p: nat)
    requires p >= 1
    ensures x % (2 * p) == 2 * ((x / 2) % p) + x % 2
  {
    var h, q := x / 2, (x / 2) / p;
    var r := 2 * (h % p) + x % 2;
    assert x == 2 * h + x % 2;
    assert h == p * q + h % p;
    assert x == (2 * p) * q + r by {
      assert 2 * (p * q) == (2 * p) * q;
    }
    ModUnique(x, 2 * p, q, r);
  }

  /** Euclidean division has one quotient and one remainder. */
  lemma ModUnique(x: int, d: int, q: int, r: int)
    requires 0 <= r < d && x == d * q + r
    ensures x / d == q && x % d == r
  {
    var q', r' := x / d, x % d;
    assert x == d * q' + r' && 0 <= r' < d;
    var k := q - q';
    assert d * k == r' - r by {
      assert d * q - d * q' == d * k;
    }
    if k > 0 {
      MulAtLeast(d, k);
    } else if k < 0 {
      MulAtLeast(d, -k);
    }
  }

  lemma MulAtLeast(d: int, k: int)
    requires d > 0 && k >= 1
    ensures d * k >= d
  {
    assert d * k == d * (k - 1) + d;
  }

  /** Masking with `n` one-bits keeps `x` modulo `2^n`: Python's `x & 0xffff`
   *  is `x % 0x10000` for every integer `x`, negative ones included. */
  lemma {:induction false} BitAndOnes(x: int, n: nat)
    ensures BitAnd(x, Pow2(n) - 1, n) == x % Pow2(n)
    decreases n
  {
    hide BitAnd, Pow2;
    if n == 0 {
      BitAndOnesBase(x);
    } else {
      BitAndOnesStep(x, n);
      BitAndOnes(x / 2, n - 1);
    }
  }

  lemma BitAndOnesBase(x: int)
    ensures BitAnd(x, Pow2(0) - 1, 0) == x % Pow2(0)
  {
    ModUnique(x, 1, x, 0);
  }

  /** One step of `BitAndOnes`: both sides split off the lowest bit of `x`,
   *  as the lowest bit of `2^n - 1` is set and the rest is `2^(n-1) - 1`. */
  lemma BitAndOnesStep(x: int, n: nat)
    requires n > 0
    ensures BitAnd(x, Pow2(n) - 1, n) == 2 * BitAnd(x / 2, Pow2(n - 1) - 1, n - 1) + x % 2
    ensures x % Pow2(n) == 2 * ((x / 2) % Pow2(n - 1)) + x % 2
  {
    var p := Pow2(n - 1);
    ModUnique(2 * p - 1, 2, p - 1, 1);
    ModDouble(x, p);
  }

  lemma BitAndWordOnes(x: int)
    ensures BitAnd(x, 0xFFFF, 16) == x % 0x1_0000
    ensures BitAnd(0xFFFF, x, 16) == x % 0x1_0000
  {
    Pow2Widths();
    BitAndOnes(x, 16);
    BitAndCommutes(x, 0xFFFF, 16);
  }

  lemma BitAndByteOnes(x: int)
    ensures BitAnd(x, 0xFF, 8) == x % 0x100
  {
    Pow2Widths();
    BitAndOnes(x, 8);
  }

  /** `v & 0xffff`, on a C unsigned value or on any Python `int`: the value
   *  modulo 2^16, as `MaskWordIsAnd` shows. */
  function Mask16(v: int): Word
  {
    v % 0x1_0000
  }

  /** `v & 0xff` on any Python `int`: the value modulo 2^8. */
  function Mask8(v: int): Byte
  {
    v % 0x100
  }

  /** `Mask16` and `Mask8` are the bitwise ANDs with 16 and 8 one-bits, for
   *  every integer, negative ones included. */
  lemma MaskWordIsAnd(v: int)
    ensures Mask16(v) == BitAnd(v, 0xFFFF, 16) == BitAnd(0xFFFF, v, 16)
    ensures Mask8(v) == BitAnd(v, 0xFF, 8)
  {
    BitAndWordOnes(v);
    BitAndByteOnes(v);
  }

  /** The two bytes of a 16-bit value, high byte first, make it up again:
   *  `((v & 0xffff) >> 8) << 8 | (v & 0xff) == v & 0xffff`. */
  lemma JoinBytes(v: int)
    ensures Mask16(v) / 0x100 * 0x100 + Mask8(v) == Mask16(v)
  {
    var w := v % 0x1_0000;
    ModUnique(v, 0x100, (v / 0x1_0000) * 0x100 + w / 0x100, w % 0x100);
  }

  /** De Morgan on `n`-bit values: complementing both inputs of an AND and
   *  its output gives an OR (`cx`, `cy` are the complements of `x`, `y`). */
  lemma {:induction false} DeMorgan(x: int, y: int, cx: int, cy: int, n: nat)
    requires 0 <= x < Pow2(n) && 0 <= y < Pow2(n)
    requires cx == Pow2(n) - 1 - x && cy == Pow2(n) - 1 - y
    ensures Pow2(n) - 1 - BitAnd(cx, cy, n) == BitOr(x, y, n)
    decreases n
  {
    if n > 0 {
      var p := Pow2(n - 1);
      assert cx / 2 == p - 1 - x / 2 && cx % 2 == 1 - x % 2;
      assert cy / 2 == p - 1 - y / 2 && cy % 2 == 1 - y % 2;
      DeMorgan(x / 2, y / 2, cx / 2, cy / 2, n - 1);
    }
  }

  lemma DeMorganWord(x: Word, y: Word)
    ensures Complement16(And16(Complement16(x), Complement16(y))) == Or16(x, y)
  {
    Pow2Widths();
    DeMorgan(x, y, Complement16(x), Complement16(y), 16);
  }

  /** C `x & y` on two `uint16_t` operands. */
  function And16(x: Word, y: Word): (r: Word)
    ensures r <= x && r <= y
  {
    Pow2Widths();
    AndBelow(x, y, 16);
    BitAnd(x, y, 16)
  }

  /** An AND of non-negative values never exceeds either operand. */
  lemma {:induction false} AndBelow(x: int, y: int, n: nat)
    requires x >= 0 && y >= 0
    ensures BitAnd(x, y, n) <= x && BitAnd(x, y, n) <= y
    decreases n
  {
    if n > 0 {
      AndBelow(x / 2, y / 2, n - 1);
    }
  }

  /** The reference `x | y` on 16-bit words. */
  function Or16(x: Word, y: Word): (r: Word)
    ensures x <= r && y <= r
  {
    Pow2Widths();
    OrAbove(x, y, 16);
    BitOr(x, y, 16)
  }

  lemma {:induction false} OrAbove(x: int, y: int, n: nat)
    requires 0 <= x < Pow2(n) && 0 <= y < Pow2(n)
    ensures x <= BitOr(x, y, n) && y <= BitOr(x, y, n)
    decreases n
  {
    if n > 0 {
      OrAbove(x / 2, y / 2, n - 1);
    }
  }

  /** Bit 15 of a word is its sign bit: it is set exactly from 0x8000 up. */
  lemma SignBit(w: Word)
    ensures HasBit(w, 0x8000) <==> w >= 0x8000
  {
    if w >= 0x8000 {
      ModUnique(w, 0x8000, 1, w - 0x8000);
    } else {
      ModUnique(w, 0x8000, 0, w);
    }
  }

  /** ANDing an `n`-bit value with `n` one-bits (`ones`) changes nothing. */
  lemma {:induction false} AndAllOnes(x: int, n: nat, ones: int)
    requires ones == Pow2(n) - 1 && 0 <= x <= ones
    ensures BitAnd(x, ones, n) == x && BitAnd(ones, x, n) == x
    decreases n
  {
    if n > 0 {
      AndAllOnes(x / 2, n - 1, Pow2(n - 1) - 1);
    }
  }

  /** ANDing with all ones changes nothing. */
  lemma And16Ones(x: Word)
    ensures And16(x, 0xFFFF) == x && And16(0xFFFF, x) == x
  {
    Pow2Widths();
    AndAllOnes(x, 16, 0xFFFF);
  }
}
