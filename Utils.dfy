/** The flag primitives of the emulator (CortexM4-CSharp/Utils.cs): sign-bit
    formulas for the carry and overflow of a 32-bit addition or subtraction,
    and the split of a word into halfwords. In each predicate `c` is the
    32-bit result the caller has already computed. The C# code combines the
    0/1 values of Neg and Pos with `&` and `|` and compares with 0; on 0/1
    values that is the same as testing which of them are 1, which is how the
    predicates below are written. */
module Utils {
  import opened Words

  /** `i >> 31`: bit 31 of `i`, as the number 0 or 1. On a `uint` the
      shift leaves exactly the top bit, which is set when `i >= 2^31`. */
  function Neg(i: Word): (r: nat)
    ensures r <= 1
  {
    if i >= SIGN_BIT then 1 else 0
  }

  /** `~i >> 31`: the complement of bit 31 of `i`, as the number 0 or 1. */
  function Pos(i: Word): (r: nat)
    ensures r == 1 - Neg(i)
  {
    if i < SIGN_BIT then 1 else 0
  }

  /** Neg and Pos are the 31-bit right shifts of `i` and of its complement
      `0xFFFF_FFFF - i`. */
  lemma NegAndPosAreShifts(i: Word)
    ensures Neg(i) == i / SIGN_BIT
    ensures Pos(i) == (0xFFFF_FFFF - i) / SIGN_BIT
  {
  }

  /** `(Neg(a) & Neg(b)) | (Neg(a) & Pos(c)) | (Neg(b) & Pos(c))`, non-zero. */
  predicate AddCarry(a: Word, b: Word, c: Word) {
    (Neg(a) == 1 && Neg(b) == 1) || (Neg(a) == 1 && Pos(c) == 1) || (Neg(b) == 1 && Pos(c) == 1)
  }

  /** `(Neg(a) & Neg(b) & Pos(c)) | (Pos(a) & Pos(b) & Neg(c))`, non-zero. */
  predicate AddOverflow(a: Word, b: Word, c: Word) {
    (Neg(a) == 1 && Neg(b) == 1 && Pos(c) == 1) || (Pos(a) == 1 && Pos(b) == 1 && Neg(c) == 1)
  }

  /** `(Neg(a) & Pos(b)) | (Neg(a) & Pos(c)) | (Pos(b) & Pos(c))`, non-zero. */
  predicate SubCarry(a: Word, b: Word, c: Word) {
    (Neg(a) == 1 && Pos(b) == 1) || (Neg(a) == 1 && Pos(c) == 1) || (Pos(b) == 1 && Pos(c) == 1)
  }

  /** `(Neg(a) & Pos(b) & Pos(c)) | (Pos(a) & Neg(b) & Neg(c))`, non-zero. */
  predicate SubOverflow(a: Word, b: Word, c: Word) {
    (Neg(a) == 1 && Pos(b) == 1 && Pos(c) == 1) || (Pos(a) == 1 && Neg(b) == 1 && Neg(c) == 1)
  }

  /** `[value & 0xFFFF, (value >> 16) & 0xFFFF]`: the low and the high halfword. */
  function ToHalfWord(value: Word): (r: seq<Half>)
    ensures |r| == 2
    ensures r[0] as int + 0x1_0000 * (r[1] as int) == value
  {
    [value % 0x1_0000, value / 0x1_0000]
  }

  // ---------------------------------------------------------------------
  // Reference definitions

  /** A mathematical value fits in a C# `int`. */
  predicate InSigned32(x: int) {
    -SIGN_BIT <= x < SIGN_BIT
  }

  // ---------------------------------------------------------------------
  // The sign-bit formulas agree with exact arithmetic

  /** AddCarry of the wrapped sum holds exactly when the exact sum of the two
      unsigned operands reaches 2^32. */
  lemma AddCarryIsUnsignedCarry(a: Word, b: Word)
    ensures AddCarry(a, b, Wrap(a + b)) <==> a + b >= WORD_MODULUS
  {
  }

  /** AddOverflow of the wrapped sum holds exactly when the exact sum of the
      two signed readings does not fit in 32 bits. */
  lemma AddOverflowIsSignedOverflow(a: Word, b: Word)
    ensures AddOverflow(a, b, Wrap(a + b)) <==> !InSigned32(Signed(a) + Signed(b))
  {
  }

  /** SubCarry of the wrapped difference holds exactly when nothing is
      borrowed: a >= b as unsigned numbers. */
  lemma SubCarryIsNoBorrow(a: Word, b: Word)
    ensures SubCarry(a, b, Wrap(a - b)) <==> a >= b
  {
  }

  /** SubOverflow of the wrapped difference holds exactly when the exact
      difference of the two signed readings does not fit in 32 bits. */
  lemma SubOverflowIsSignedOverflow(a: Word, b: Word)
    ensures SubOverflow(a, b, Wrap(a - b)) <==> !InSigned32(Signed(a) - Signed(b))
  {
  }

  /** The bit-31 image `x & 0x8000_0000` of a word. */
  function TopBit(x: Word): (r: Word)
    ensures r == 0 || r == SIGN_BIT
    ensures (r == SIGN_BIT) == (x >= SIGN_BIT)
  {
    if x >= SIGN_BIT then SIGN_BIT else 0
  }

  /** All four flag predicates look only at bit 31 of their three arguments. */
  lemma FlagsReadOnlyBit31(a: Word, b: Word, c: Word)
    ensures AddCarry(a, b, c) == AddCarry(TopBit(a), TopBit(b), TopBit(c))
    ensures AddOverflow(a, b, c) == AddOverflow(TopBit(a), TopBit(b), TopBit(c))
    ensures SubCarry(a, b, c) == SubCarry(TopBit(a), TopBit(b), TopBit(c))
    ensures SubOverflow(a, b, c) == SubOverflow(TopBit(a), TopBit(b), TopBit(c))
  {
  }

  /** ToHalfWord's halves are the two halfwords a little-endian store puts
      at offsets 0 and 2. */
  lemma ToHalfWordIsUnique(value: Word, lo: Half, hi: Half)
    requires lo as int + 0x1_0000 * (hi as int) == value
    ensures ToHalfWord(value) == [lo, hi]
  {
  }
}
