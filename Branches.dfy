/** The branch handlers of the CPU (CortexM4-CSharp/CPU.cs:1220-1412). Every
    taken branch ends with the same sequence, `Jump`: R15 gets the target,
    PC gets R15, R15 moves two bytes on and the prefetch queue is refilled.
    The offsets are relative to R15, which during execution is the
    address of the branch plus four. */
module Branches {
  import opened Words
  import opened Faults
  import opened Machines

  // ---------------------------------------------------------------------
  // Conditional branch

  /** `(sbyte)(i & 0xFF)`: the low byte as a signed eight-bit number. */
  function SignedByte(i: bv16): (r: int)
    ensures -128 <= r < 128
    ensures (r - Bits8(i)) % 256 == 0
  {
    var b := Bits8(i);
    if b >= 128 then b - 256 else b
  }

  /** The test each case of the `switch` in ConditionalBranch makes, for the
      fourteen conditions it handles. Condition 0 (BEQ) tests the carry
      flag, as condition 2 (BCS) does. */
  predicate Taken(m: Machine, cond: nat)
    requires cond < 14
  {
    match cond
    case 0 => m.c
    case 1 => !m.z
    case 2 => m.c
    case 3 => !m.c
    case 4 => m.n
    case 5 => !m.n
    case 6 => m.v
    case 7 => !m.v
    case 8 => m.c && !m.z
    case 9 => !m.c || m.z
    case 10 => m.n == m.v
    case 11 => m.n != m.v
    case 12 => !m.z && m.n == m.v
    case 13 => m.z || m.n != m.v
  }

  /** B<cond> label: the condition in bits 8..11; when it holds, a jump to
      R15 plus twice the signed eight-bit offset; when it does not, nothing
      changes. Conditions 14 and 15 are outside the switch and throw. */
  function ConditionalBranch(m: Machine, i: bv16): Exec {
    var cond := Bits4(i, 8);
    if cond >= 14 then Fail(m, UnsupportedSubOperation(i))
    else if Taken(m, cond) then Jump(m, Wrap(m.r[PC_INDEX] as int + 2 * SignedByte(i)))
    else Done(m)
  }

  /** The condition table of the Thumb instruction set (section A7.3 of the
      ARMv7-M Architecture Reference Manual), for the fifteen conditions
      that a conditional instruction can carry. */
  predicate ConditionPassed(m: Machine, cond: nat)
    requires cond < 15
  {
    match cond
    case 0 => m.z                      // EQ
    case 1 => !m.z                     // NE
    case 2 => m.c                      // CS
    case 3 => !m.c                     // CC
    case 4 => m.n                      // MI
    case 5 => !m.n                     // PL
    case 6 => m.v                      // VS
    case 7 => !m.v                     // VC
    case 8 => m.c && !m.z              // HI
    case 9 => !m.c || m.z              // LS
    case 10 => m.n == m.v              // GE
    case 11 => m.n != m.v              // LT
    case 12 => !m.z && m.n == m.v      // GT
    case 13 => m.z || m.n != m.v       // LE
    case 14 => true                    // AL
  }

  /** Conditions 1 to 13 test what the architecture says they test;
      condition 0 differs from EQ exactly when the carry and zero flags
      differ. */
  lemma TakenAgreesWithArchitecture(m: Machine, cond: nat)
    requires cond < 14
    ensures cond != 0 ==> (Taken(m, cond) <==> ConditionPassed(m, cond))
    ensures cond == 0 ==> (Taken(m, cond) != ConditionPassed(m, cond) <==> m.c != m.z)
  {
  }

  /** BEQ (0xD004) in a state with Z set and C clear is not taken,
      although the architecture's EQ holds. */
  lemma BranchIfEqualIgnoresZero(m: Machine)
    requires m.z && !m.c
    ensures ConditionPassed(m, 0)
    ensures ConditionalBranch(m, 0xD004) == Done(m)
  {
    assert Bits4(0xD004, 8) == 0;
  }

  /** The branch offset is even and within -256..254 bytes. */
  lemma ConditionalOffsetRange(i: bv16)
    ensures -256 <= 2 * SignedByte(i) <= 254
    ensures (2 * SignedByte(i)) % 2 == 0
    ensures Bits8(i) == 0x7F ==> 2 * SignedByte(i) == 254
    ensures Bits8(i) == 0x80 ==> 2 * SignedByte(i) == -256
  {
  }

  /** A conditional branch whose test fails changes nothing, and conditions
      14 and 15 throw and change nothing; */
  lemma ConditionalBranchEffect(m: Machine, i: bv16)
    ensures var cond := Bits4(i, 8);
      var e := ConditionalBranch(m, i);
      && (cond >= 14 ==> e == Fail(m, UnsupportedSubOperation(i)))
      && (cond < 14 && !Taken(m, cond) ==> e == Done(m))
  {
  }

  /** one whose test holds jumps to R15 plus the offset and leaves the
      flags, memory and R0..R14 alone. */
  lemma ConditionalBranchTaken(m: Machine, i: bv16)
    requires Bits4(i, 8) < 14 && Taken(m, Bits4(i, 8))
    ensures var e := ConditionalBranch(m, i);
      var target := Wrap(m.r[PC_INDEX] as int + 2 * SignedByte(i));
      && e.state == m.(r := m.r[PC_INDEX := Wrap(target + 2)], pc := target, prefetch := e.state.prefetch)
      && (e.outcome.Completed? ==> QueueHolds(e.state, target))
  {
    var target := Wrap(m.r[PC_INDEX] as int + 2 * SignedByte(i));
    ConditionalBranchJumps(m, i);
    JumpEffect(m, target);
  }

  /** A taken conditional branch is the jump to R15 plus the offset. */
  lemma ConditionalBranchJumps(m: Machine, i: bv16)
    requires Bits4(i, 8) < 14 && Taken(m, Bits4(i, 8))
    ensures ConditionalBranch(m, i) == Jump(m, Wrap(m.r[PC_INDEX] as int + 2 * SignedByte(i)))
  {
  }

  // ---------------------------------------------------------------------
  // Unconditional branch

  /** `(i & 0x3FF) << 1`, with the bits above bit 10 all set
      (`|= 0xFFFFF800`) when bit 10 is set: the offset of B label. On a
      value below 0x800 that `|` is the subtraction of 0x800 from the
      two's-complement reading. */
  function BranchOffset(i: bv16): int {
    var offset := 2 * ((i & 0x3FF) as int);
    if Flag(i, 0x400) then offset - 0x800 else offset
  }

  /** B label: a jump to R15 plus the eleven-bit offset. */
  function UnconditionalBranch(m: Machine, i: bv16): Exec {
    Jump(m, Wrap(m.r[PC_INDEX] as int + BranchOffset(i)))
  }

  /** The architecture's offset for B label: the eleven-bit immediate with
      a zero appended, sign-extended from twelve bits. */
  function SignExtendedOffset11(i: bv16): (r: int) {
    var imm12 := 2 * ((i & 0x7FF) as int);
    if imm12 >= 0x800 then imm12 - 0x1000 else imm12
  }

  /** The offset the handler computes is the architecture's: even, within
      -2048..2046, and sign-extended from bit 10. */
  lemma BranchOffsetIsSignExtended(i: bv16)
    ensures BranchOffset(i) == SignExtendedOffset11(i)
    ensures -2048 <= BranchOffset(i) <= 2046 && BranchOffset(i) % 2 == 0
    ensures i & 0x7FF == 0x3FF ==> BranchOffset(i) == 2046
    ensures i & 0x7FF == 0x400 ==> BranchOffset(i) == -2048
  {
    ElevenBitsSplit(i);
  }

  /** The eleven-bit field is the ten low bits plus bit 10. */
  lemma ElevenBitsSplit(i: bv16)
    ensures (i & 0x7FF) as int == (i & 0x3FF) as int + (if Flag(i, 0x400) then 0x400 else 0)
    ensures (i & 0x3FF) as int < 0x400
  {
    assert i & 0x7FF == (i & 0x3FF) | (i & 0x400);
    assert (i & 0x3FF) & (i & 0x400) == 0;
  }

  /** `offset |= unchecked((int)0xFFFFF800)` on a value below 0x800 is, on
      the 32-bit pattern, the addition of 0xFFFFF800, which is the
      subtraction of 0x800 modulo 2^32. */
  lemma OrHighMaskIsSubtraction(x: bv32)
    requires x < 0x800
    ensures x | 0xFFFF_F800 == x + 0xFFFF_F800
  {
  }

  /** B label always jumps; the flags, memory and R0..R14 are unchanged. */
  lemma UnconditionalBranchEffect(m: Machine, i: bv16)
    ensures var e := UnconditionalBranch(m, i);
      var target := Wrap(m.r[PC_INDEX] as int + BranchOffset(i));
      && e.state == m.(r := m.r[PC_INDEX := Wrap(target + 2)], pc := target, prefetch := e.state.prefetch)
      && (e.outcome.Completed? ==> QueueHolds(e.state, target))
  {
    var target := Wrap(m.r[PC_INDEX] as int + BranchOffset(i));
    assert UnconditionalBranch(m, i) == Jump(m, target);
    JumpEffect(m, target);
  }

  // ---------------------------------------------------------------------
  // Long branch with link

  /** `R15 + ((offset << 12) | 0xFF800000)` for the eleven-bit `offset`:
      the value the first half of the handler leaves in R14. The other
      arm of its test, `(offset & 0xF000) != 0`, cannot be taken, since
      `offset` is below 0x800. */
  function LinkBase(m: Machine, i: bv16): Word {
    Wrap(m.r[PC_INDEX] as int + 0x1000 * ((i & 0x7FF) as int) + 0xFF80_0000)
  }

  /** The handler for bits 12..15 = 1111. It treats the halfword it is given
      as both halves of BL: after the first, it shifts the instruction right
      by sixteen, which leaves zero, so the second half adds nothing to
      R14. R15 and PC get LinkBase with bit 0 cleared, R15 then moves two
      on, R14 gets the old R15 - 2 with bit 0 set, and the queue is
      refilled. */
  function LongBranchWithLink(m: Machine, i: bv16): Exec {
    var link := SetBit0(Wrap(m.r[PC_INDEX] as int - 2));
    var m1 := SetReg(m, LR_INDEX, LinkBase(m, i));
    var target := ClearBit0(m1.r[LR_INDEX]);
    var m2 := SetReg(m1, PC_INDEX, target).(pc := target);
    var m3 := SetReg(m2, PC_INDEX, Wrap(m2.r[PC_INDEX] as int + 2));
    Prefetch(SetReg(m3, LR_INDEX, link))
  }

  /** Whatever the offset, LinkBase lies 4 KiB to 8 MiB below R15 (modulo
      2^32): the first half always reads its offset as negative. */
  lemma LinkBaseIsBackward(m: Machine, i: bv16)
    ensures LinkBase(m, i) == Wrap(m.r[PC_INDEX] as int + 0x1000 * ((i & 0x7FF) as int) - 0x80_0000)
    ensures 0x1000 <= Wrap(m.r[PC_INDEX] as int - LinkBase(m, i)) <= 0x80_0000
  {
    var d := 0x80_0000 - 0x1000 * ((i & 0x7FF) as int);
    assert 0x1000 <= d <= 0x80_0000;
    assert Wrap(m.r[PC_INDEX] as int - LinkBase(m, i)) == d;
  }

  /** The long branch jumps to LinkBase rounded down to even, leaving the
      target plus 2 in R15; nothing but the registers, PC and the queue
      changes, and on success the queue holds the target. */
  lemma LongBranchWithLinkEffect(m: Machine, i: bv16)
    ensures var e := LongBranchWithLink(m, i);
      var target := ClearBit0(LinkBase(m, i));
      && e.state == m.(r := e.state.r, pc := target, prefetch := e.state.prefetch)
      && e.state.r[PC_INDEX] == Wrap(target as int + 2)
      && (e.outcome.Completed? ==> QueueHolds(e.state, target))
  {
    var s := LinkState(m, i);
    var target := ClearBit0(LinkBase(m, i));
    LongBranchPrefetches(m, i);
    assert s == m.(r := s.r, pc := target);
    assert s.r[PC_INDEX] == Wrap(target as int + 2);
    PrefetchOnlyFillsQueue(s);
    PrefetchFillsQueue(s);
  }

  /** R14 ends up holding R15 - 2 with bit 0 set, and R0..R13 keep their
      values. */
  lemma LongBranchWithLinkLinks(m: Machine, i: bv16)
    ensures var e := LongBranchWithLink(m, i);
      && e.state.r[LR_INDEX] == SetBit0(Wrap(m.r[PC_INDEX] as int - 2))
      && (forall k :: 0 <= k < 16 && k != LR_INDEX && k != PC_INDEX ==> e.state.r[k] == m.r[k])
  {
    var s := LinkState(m, i);
    LongBranchPrefetches(m, i);
    PrefetchOnlyFillsQueue(s);
  }

  /** The state LongBranchWithLink hands to Prefetch. */
  function LinkState(m: Machine, i: bv16): Machine {
    var m1 := SetReg(m, LR_INDEX, LinkBase(m, i));
    var target := ClearBit0(m1.r[LR_INDEX]);
    var m2 := SetReg(m1, PC_INDEX, target).(pc := target);
    var m3 := SetReg(m2, PC_INDEX, Wrap(m2.r[PC_INDEX] as int + 2));
    SetReg(m3, LR_INDEX, SetBit0(Wrap(m.r[PC_INDEX] as int - 2)))
  }

  lemma LongBranchPrefetches(m: Machine, i: bv16)
    ensures LongBranchWithLink(m, i) == Prefetch(LinkState(m, i))
  {
  }

  /** The two halves of a BL pair (bit 11 clear, then set) behave alike: the
      handler never looks at bit 11. */
  lemma LongBranchIgnoresHalfSelector(m: Machine, i: bv16)
    ensures LongBranchWithLink(m, i) == LongBranchWithLink(m, i ^ 0x800)
  {
    assert (i ^ 0x800) & 0x7FF == i & 0x7FF;
  }
}
