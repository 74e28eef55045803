/** Machine words as bounded integers. The emulator computes on C# `uint`,
    `ushort` and `byte` values; here they are integers in range, and every
    place where C# silently wraps around is written out with `Wrap`.
    `&` and `^` are computed through Dafny's bit-vector types; the shifts,
    and the masks that clear or set low bits, are written as the
    arithmetic they amount to on unsigned values. */
module Words {

  const WORD_MODULUS := 0x1_0000_0000
  const SIGN_BIT := 0x8000_0000

  /** A C# `uint`. */
  type Word = x: int | 0 <= x < 0x1_0000_0000
  /** A C# `ushort`. */
  type Half = x: int | 0 <= x < 0x1_0000
  /** A C# `byte`. */
  type Byte = x: int | 0 <= x < 0x100

  /** The value of an integer expression once it is stored in a `uint`:
      C# arithmetic on `uint` (and the `(uint)` cast of an `int`) keeps the
      result modulo 2^32. */
  function Wrap(x: int): (r: Word)
    ensures 0 <= x < WORD_MODULUS ==> r == x
  {
    x % WORD_MODULUS
  }

  /** The two's-complement reading of a word, as C#'s `(int)` cast gives it. */
  function Signed(x: Word): (r: int)
    ensures -SIGN_BIT <= r < SIGN_BIT
    ensures Wrap(r) == x
  {
    if x >= SIGN_BIT then x - WORD_MODULUS else x
  }

  /** `a & b` on `uint`. */
  function And(a: Word, b: Word): Word {
    ((a as bv32) & (b as bv32)) as int
  }

  /** `a ^ b` on `uint`. */
  function Xor(a: Word, b: Word): Word {
    ((a as bv32) ^ (b as bv32)) as int
  }

  /** The shift count C# uses for a 32-bit operand: only its low five bits,
      so a count of 32 shifts by 0 and a count of -1 shifts by 31. */
  function ShiftCount(k: int): (r: nat)
    ensures r < 32
    ensures (r - k) % 32 == 0
  {
    k % 32
  }

  /** 2^n. */
  function Pow2(n: nat): (r: nat)
    ensures r >= 1
  {
    if n == 0 then 1 else 2 * Pow2(n - 1)
  }

  /** `x << k` on `uint`: the bits shifted past bit 31 are lost, so this is
      x times 2^(k mod 32), modulo 2^32. */
  function Shl(x: Word, k: int): Word {
    Wrap(x * Pow2(ShiftCount(k)))
  }

  /** `x >> k` on `uint` (a logical shift): the quotient of x by 2^(k mod 32). */
  function Shr(x: Word, k: int): Word {
    Quotient(x, Pow2(ShiftCount(k)))
  }

  /** `x / d` for a positive divisor, which keeps a word a word. */
  function Quotient(x: Word, d: nat): Word
    requires d >= 1
  {
    QuotientBelow(x, d);
    x / d
  }

  /** `(uint)((int)x >> k)`: the arithmetic shift, which copies the sign bit.
      On a negative value it is the complement of the logical shift of the
      complement, as `~(~x >> k)`. */
  function Sar(x: Word, k: int): Word {
    if x < SIGN_BIT then Shr(x, k)
    else 0xFFFF_FFFF - Shr(0xFFFF_FFFF - x, k)
  }

  /** `(x >> k) & 1 == 1`: bit `k` of `x`, with the count masked as by C#. */
  function Bit(x: Word, k: int): bool {
    Shr(x, k) % 2 == 1
  }

  /** Below 32 the count is used as it is: `x << n` is x times 2^n modulo
      2^32, `x >> n` the quotient by 2^n, and bit n the parity of that
      quotient. */
  lemma ShiftsBelow32(x: Word, n: nat)
    requires n < 32
    ensures Shl(x, n) == (x * Pow2(n)) % WORD_MODULUS
    ensures Shr(x, n) == x / Pow2(n)
    ensures Bit(x, n) <==> (x / Pow2(n)) % 2 == 1
  {
    assert ShiftCount(n) == n;
  }

  /** The C# masking of the counts at the ends of the range: a count of 32
      is 0, so `x >> 32` is x and "bit 32" is bit 0; a count of -1 is 31, so
      "bit -1" is the sign bit. */
  lemma ShiftCountsMasked(x: Word)
    ensures Shl(x, 0) == x && Shr(x, 0) == x
    ensures Bit(x, 32) <==> x % 2 == 1
    ensures Bit(x, -1) <==> x >= SIGN_BIT
  {
    assert ShiftCount(0) == 0 && ShiftCount(32) == 0 && ShiftCount(-1) == 31;
    Pow2Constants();
  }

  /** The powers of two at the ends of the shift range. */
  lemma Pow2Constants()
    ensures Pow2(0) == 1 && Pow2(31) == SIGN_BIT && Pow2(32) == WORD_MODULUS
  {
    assert Pow2(4) == 0x10;
    assert Pow2(8) == 0x100;
    assert Pow2(12) == 0x1000;
    assert Pow2(16) == 0x1_0000;
    assert Pow2(20) == 0x10_0000;
    assert Pow2(24) == 0x100_0000;
    assert Pow2(28) == 0x1000_0000;
    assert Pow2(31) == 0x8000_0000;
  }

  /** Wrapping keeps the lowest bit (2^32 is even). */
  lemma WrapKeepsParity(x: int)
    ensures Wrap(x) % 2 == x % 2
  {
    var q := x / WORD_MODULUS;
    assert x == q * WORD_MODULUS + Wrap(x);
    assert x - Wrap(x) == 2 * (q * 0x8000_0000);
  }

  /** A quotient by a positive divisor is no larger than the dividend. */
  lemma QuotientBelow(x: nat, d: nat)
    requires d >= 1
    ensures x / d <= x
  {
    if d > 1 {
      assert x == d * (x / d) + x % d;
    }
  }

  /** Euclidean division rounds down, so for a value below zero written as
      `-1 - y` the quotient is `-1 - y / d`: the identity behind `~(~x >> k)`. */
  lemma QuotientOfComplement(y: nat, d: nat)
    requires d >= 1
    ensures (-1 - y) / d == -1 - y / d
  {
    var q, r := y / d, y % d;
    assert y == q * d + r && 0 <= r < d;
    assert -1 - y == (-1 - q) * d + (d - 1 - r);
    DivisionIsUnique(-1 - y, d, -1 - q, d - 1 - r);
  }

  /** The quotient and remainder of a division are determined by the equation
      `a == q * d + r` with `0 <= r < d`. */
  lemma DivisionIsUnique(a: int, d: nat, q: int, r: int)
    requires d >= 1 && a == q * d + r && 0 <= r < d
    ensures a / d == q && a % d == r
  {
    var q', r' := a / d, a % d;
    assert a == q' * d + r' && 0 <= r' < d;
    var t := q - q';
    assert t * d == r' - r by {
      assert q * d - q' * d == (q - q') * d;
    }
    if t >= 1 {
      ProductAtLeast(t, d);
    } else if t <= -1 {
      ProductAtLeast(-t, d);
    }
  }

  lemma ProductAtLeast(t: int, d: nat)
    requires t >= 1
    ensures t * d >= d
  {
    assert t * d == (t - 1) * d + d;
    assert (t - 1) * d >= 0;
  }

  /** Shifting by fewer than 32 bits, the arithmetic right shift is the
      quotient of the signed value by 2^n, rounded down, read back as a
      word. */
  lemma SarIsFloorDivision(x: Word, n: nat)
    requires n < 32
    ensures Sar(x, n) == Wrap(Signed(x) / Pow2(n))
  {
    assert ShiftCount(n) == n;
    if x < SIGN_BIT {
      SarOfPositive(x, Pow2(n));
    } else {
      SarOfNegative(x, Pow2(n));
    }
  }

  lemma SarOfPositive(x: Word, d: nat)
    requires x < SIGN_BIT && d >= 1
    ensures x / d == Wrap(Signed(x) / d)
  {
    QuotientBelow(x, d);
  }

  lemma SarOfNegative(x: Word, d: nat)
    requires x >= SIGN_BIT && d >= 1
    ensures 0xFFFF_FFFF - (0xFFFF_FFFF - x) / d == Wrap(Signed(x) / d)
  {
    var y := 0xFFFF_FFFF - x;
    QuotientBelow(y, d);
    QuotientOfComplement(y, d);
    assert Signed(x) == -1 - y;
  }

  /** Bit 31, the sign bit, tested arithmetically. */
  function SignBit(x: Word): bool {
    x >= SIGN_BIT
  }

  /** `x & ~1`: bit 0 cleared. */
  function ClearBit0(x: Word): (r: Word)
    ensures r % 2 == 0
    ensures r <= x < r + 2
  {
    x - x % 2
  }

  /** `x | 1`: bit 0 set. */
  function SetBit0(x: Word): (r: Word)
    ensures r % 2 == 1
    ensures r == ClearBit0(x) + 1
  {
    x - x % 2 + 1
  }

  /** `x & ~3`: x rounded down to a multiple of four. */
  function AlignDown4(x: Word): (r: Word)
    ensures r % 4 == 0
    ensures r <= x < r + 4
  {
    x - x % 4
  }

  /** `(byte)x`, equivalently `BitConverter.GetBytes(x)[0]`: the low byte. */
  function LowByte(x: int): (r: Byte)
    ensures (x - r) % 0x100 == 0
  {
    x % 0x100
  }

  /** `(ushort)x`: the low halfword. */
  function LowHalf(x: int): (r: Half)
    ensures (x - r) % 0x1_0000 == 0
  {
    x % 0x1_0000
  }

  /** `((i >> shift) & 3)` on an instruction halfword: a two-bit field,
      such as an operation code. */
  function Bits2(i: bv16, shift: nat): (r: nat)
    requires shift < 16
    ensures r < 4
  {
    ((i >> shift) & 3) as int
  }

  /** `((i >> shift) & 7)` on an instruction halfword: a three-bit field,
      such as a low register number. */
  function Bits3(i: bv16, shift: nat): (r: nat)
    requires shift < 16
    ensures r < 8
  {
    ((i >> shift) & 7) as int
  }

  /** `((i >> shift) & 15)`: a four-bit field. */
  function Bits4(i: bv16, shift: nat): (r: nat)
    requires shift < 16
    ensures r < 16
  {
    ((i >> shift) & 15) as int
  }

  /** `((i >> shift) & 31)`: a five-bit field. */
  function Bits5(i: bv16, shift: nat): (r: nat)
    requires shift < 16
    ensures r < 32
  {
    ((i >> shift) & 31) as int
  }

  /** `(i & 0xFF)`: the low eight bits. */
  function Bits8(i: bv16): (r: nat)
    ensures r < 256
  {
    (i & 0xFF) as int
  }

  /** `(i & bit) != 0` on an instruction halfword. */
  predicate Flag(i: bv16, bit: bv16) {
    i & bit != 0
  }

  /** Adding and then subtracting the same amount modulo 2^32, in either
      order, gives the word back. */
  lemma WrapUndoesOffset(x: Word, k: nat)
    requires k < WORD_MODULUS
    ensures Wrap(Wrap(x + k) - k) == x
    ensures Wrap(Wrap(x - k) + k) == x
  {
  }

  /** Wrapping a word-aligned value keeps it aligned (2^32 is a multiple of 4). */
  lemma WrapKeepsAlignment(x: int)
    requires x % 4 == 0
    ensures Wrap(x) % 4 == 0
  {
    var q := x / WORD_MODULUS;
    assert x == q * WORD_MODULUS + Wrap(x);
    assert Wrap(x) == 4 * (x / 4 - q * 0x4000_0000);
  }

  /** Wrapping an intermediate sum does not change the wrapped total. */
  lemma WrapOfWrappedSum(x: int, y: int)
    ensures Wrap(Wrap(x) + y) == Wrap(x + y)
  {
  }
}
