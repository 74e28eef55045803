/** The data-processing handlers of the CPU (CortexM4-CSharp/CPU.cs:377-897):
    the shift, add/subtract, immediate, ALU and hi-register formats, and the
    two address-arithmetic formats. Each is a function from the state before
    the instruction to the state after it, written in the order the C#
    statements run. */
module DataProcessing {
  import opened Words
  import opened Faults
  import opened Utils
  import opened Machines

  // ---------------------------------------------------------------------
  // Format 1: move shifted register

  /** LSL, LSR or ASR by a five-bit immediate. C is taken from bit
      `32 - offset5` (LSL) or `offset5 - 1` (LSR, ASR) of the source, with
      the count masked to five bits as C# does; ASR shifts logically. */
  function MoveShiftedRegister(m: Machine, i: bv16): Exec {
    var op := Bits2(i, 11);
    if op == 3 then Fail(m, UnsupportedSubOperation(i))
    else Done(ShiftByImmediate(m, op, Bits3(i, 0), Bits3(i, 3), Bits5(i, 6)))
  }

  /** The three shifts of MoveShiftedRegister on their decoded fields. */
  function ShiftByImmediate(m: Machine, op: nat, rd: RegIndex, rs: RegIndex, offset5: nat): Machine
    requires op < 3
  {
    if op == 0 then
      var m1 := m.(c := Bit(m.r[rs], 32 - offset5));
      var value := Shl(m1.r[rs], offset5);
      WithNZ(SetReg(m1, rd, value), value)
    else
      var m1 := m.(c := Bit(m.r[rs], offset5 - 1));
      var value := Shr(m1.r[rs], offset5);
      WithNZ(SetReg(m1, rd, value), value)
  }

  // ---------------------------------------------------------------------
  // Format 2: add/subtract

  /** The operand of ADD/SUB: `R[rn]`, or the three-bit immediate when bit 10 is set. */
  function AddSubtractOperand(m: Machine, i: bv16): Word {
    if Flag(i, 0x400) then Bits3(i, 6) else m.r[Bits3(i, 6)]
  }

  /** `R[rd] = R[rs] +/- operand`, then Z and N from R[rd], and C and V from
      AddCarry and AddOverflow of `R[rs]` (read after the write), the operand
      and R[rd] — for the subtraction too. */
  function AddSubtract(m: Machine, i: bv16): Exec {
    var rd := Bits3(i, 0);
    var rs := Bits3(i, 3);
    var value := AddSubtractOperand(m, i);
    var result := if !Flag(i, 0x200) then Wrap(m.r[rs] as int + value) else Wrap(m.r[rs] as int - value);
    var m1 := SetReg(m, rd, result);
    Done(m1.(z := m1.r[rd] == 0, n := Neg(m1.r[rd]) != 0,
             c := AddCarry(m1.r[rs], value, m1.r[rd]),
             v := AddOverflow(m1.r[rs], value, m1.r[rd])))
  }

  // ---------------------------------------------------------------------
  // Format 3: move/compare/add/subtract immediate

  /** MOV, CMP, ADD or SUB of `R[rd]` and an eight-bit immediate. SUB takes
      its carry from AddCarry. */
  function MoveCompareAddSubtractImmediate(m: Machine, i: bv16): Exec {
    var offset8 := Bits8(i);
    var rd := Bits3(i, 8);
    var op := Bits2(i, 11);
    var lhs := m.r[rd];
    if op == 0 then
      var m1 := SetReg(m, rd, offset8);
      Done(m1.(n := false, z := m1.r[rd] == 0))
    else if op == 1 then
      var res := Wrap(lhs as int - offset8);
      Done(m.(z := res == 0, n := Neg(res) != 0,
              c := SubCarry(lhs, offset8, res), v := SubOverflow(lhs, offset8, res)))
    else if op == 2 then
      var res := Wrap(lhs as int + offset8);
      Done(SetReg(m, rd, res).(z := res == 0, n := Neg(res) != 0,
              c := AddCarry(lhs, offset8, res), v := AddOverflow(lhs, offset8, res)))
    else
      var res := Wrap(lhs as int - offset8);
      Done(SetReg(m, rd, res).(z := res == 0, n := Neg(res) != 0,
              c := AddCarry(lhs, offset8, res), v := SubOverflow(lhs, offset8, res)))
  }

  // ---------------------------------------------------------------------
  // Format 4: ALU operations

  /** LSL Rd, Rs: the count is the low byte of `R[rs]`; 0 leaves R[rd] and
      C alone, 32 clears R[rd] with C from bit 0, more than 32 clears both. */
  function ShiftLeftByRegister(m: Machine, rd: RegIndex, rs: RegIndex): (m': Machine)
    ensures m' == m.(r := m.r[rd := m'.r[rd]], c := m'.c)
  {
    var k := LowByte(m.r[rs]);
    if k == 0 then m
    else if k == 32 then SetReg(m.(c := m.r[rd] % 2 == 1), rd, 0)
    else if k < 32 then SetReg(m.(c := Bit(m.r[rd], 32 - k)), rd, Shl(m.r[rd], k))
    else SetReg(m.(c := false), rd, 0)
  }

  /** LSR Rd, Rs: as LSL, with C from bit 31 for a count of 32 and from bit
      `k - 1` below that. */
  function ShiftRightByRegister(m: Machine, rd: RegIndex, rs: RegIndex): (m': Machine)
    ensures m' == m.(r := m.r[rd := m'.r[rd]], c := m'.c)
  {
    var k := LowByte(m.r[rs]);
    if k == 0 then m
    else if k == 32 then SetReg(m.(c := SignBit(m.r[rd])), rd, 0)
    else if k < 32 then SetReg(m.(c := Bit(m.r[rd], k - 1)), rd, Shr(m.r[rd], k))
    else SetReg(m.(c := false), rd, 0)
  }

  /** ASR Rd, Rs: an arithmetic shift below 32; from 32 on, R[rd] becomes all
      sign bits and C is cleared. */
  function ArithmeticShiftByRegister(m: Machine, rd: RegIndex, rs: RegIndex): (m': Machine)
    ensures m' == m.(r := m.r[rd := m'.r[rd]], c := m'.c)
  {
    var k := LowByte(m.r[rs]);
    if k == 0 then m
    else if k < 32 then SetReg(m.(c := Sar(m.r[rd], k - 1) % 2 == 1), rd, Sar(m.r[rd], k))
    else SetReg(m.(c := false), rd, if SignBit(m.r[rd]) then 0xFFFF_FFFF else 0)
  }

  function CarryIn(m: Machine): nat {
    if m.c then 1 else 0
  }

  /** ADC: C is set when the wrapped sum is below either operand. */
  function AddWithCarry(m: Machine, rd: RegIndex, rs: RegIndex): (m': Machine)
    ensures m' == m.(r := m.r[rd := m'.r[rd]], c := m'.c)
  {
    var result := Wrap(m.r[rd] as int + m.r[rs] as int + CarryIn(m));
    SetReg(m.(c := result < m.r[rd] || result < m.r[rs]), rd, result)
  }

  /** SBC: `R[rd] - (R[rs] + carry)`, each step wrapped; C is set when the
      result is above R[rd]. */
  function SubtractWithCarry(m: Machine, rd: RegIndex, rs: RegIndex): (m': Machine)
    ensures m' == m.(r := m.r[rd := m'.r[rd]], c := m'.c)
  {
    var result := Wrap(m.r[rd] as int - Wrap(m.r[rs] as int + CarryIn(m)));
    SetReg(m.(c := result > m.r[rd]), rd, result)
  }

  /** The register and carry updates of ALU operation `op`, before N and Z
      are set. */
  function AluOperation(m: Machine, op: nat, rd: RegIndex, rs: RegIndex): Machine
    requires op < 7
  {
    if op == 0 then SetReg(m, rd, And(m.r[rd], m.r[rs]))
    else if op == 1 then SetReg(m, rd, Xor(m.r[rd], m.r[rs]))
    else if op == 2 then ShiftLeftByRegister(m, rd, rs)
    else if op == 3 then ShiftRightByRegister(m, rd, rs)
    else if op == 4 then ArithmeticShiftByRegister(m, rd, rs)
    else if op == 5 then AddWithCarry(m, rd, rs)
    else SubtractWithCarry(m, rd, rs)
  }

  /** The ALU format. The operation is read from bits 6..8 only, so the case
      labels 8 and above cannot be reached and operation 7 throws. */
  function AluOperations(m: Machine, i: bv16): Exec {
    var rd := Bits3(i, 0);
    var op := Bits3(i, 6);
    if op == 7 then Fail(m, UnsupportedSubOperation(i))
    else
      var m1 := AluOperation(m, op, rd, Bits3(i, 3));
      Done(WithNZ(m1, m1.r[rd]))
  }

  // ---------------------------------------------------------------------
  // Format 5: hi-register operations and branch exchange

  /** The CMP of the hi-register format: flags from `lhs - rhs`, no register written. */
  function Compare(m: Machine, lhs: Word, rhs: Word): Machine {
    var res := Wrap(lhs as int - rhs);
    m.(z := res == 0, n := Neg(res) != 0, c := SubCarry(lhs, rhs, res), v := SubOverflow(lhs, rhs, res))
  }

  /** After an ADD or MOV into a high register: when that register is R15,
      bit 0 is cleared and the pipeline restarts there. */
  function AfterHighWrite(m: Machine, lo: nat): Exec
    requires lo < 8
  {
    if lo == 7 then Jump(m, ClearBit0(m.r[PC_INDEX])) else Done(m)
  }

  /** BX: `R[15] = R[base]`; bit 0 set enters Thumb state and jumps to the
      address with bit 0 cleared; bit 0 clear throws, with R15 already written. */
  function BranchExchange(m: Machine, base: RegIndex): Exec {
    var m1 := SetReg(m, PC_INDEX, m.r[base]);
    if m1.r[PC_INDEX] % 2 == 1 then
      Jump(m1.(t := true), ClearBit0(m1.r[PC_INDEX]))
    else
      Fail(m1, IllegalStateTransition)
  }

  /** The hi-register format, dispatched on bits 6..9 (operation and the two
      high-register flags). */
  function HiRegisterOperationsBranchExchange(m: Machine, i: bv16): Exec {
    var op := Bits4(i, 6);
    var lo := Bits3(i, 0);
    var src := Bits3(i, 3);
    if op == 1 then Done(SetReg(m, lo, Wrap(m.r[lo] as int + m.r[src + 8])))
    else if op == 2 then AfterHighWrite(SetReg(m, lo + 8, Wrap(m.r[lo + 8] as int + m.r[src])), lo)
    else if op == 3 then AfterHighWrite(SetReg(m, lo + 8, Wrap(m.r[lo + 8] as int + m.r[src + 8])), lo)
    else if op == 5 then Done(Compare(m, m.r[lo], m.r[src + 8]))
    else if op == 6 then Done(Compare(m, m.r[lo + 8], m.r[src]))
    else if op == 7 then Done(Compare(m, m.r[lo + 8], m.r[src + 8]))
    else if op == 9 then Done(SetReg(m, lo, m.r[src + 8]))
    else if op == 10 then AfterHighWrite(SetReg(m, lo + 8, m.r[src]), lo)
    else if op == 11 then AfterHighWrite(SetReg(m, lo + 8, m.r[src + 8]), lo)
    else if op == 12 || op == 13 then
      var base := Bits4(i, 3);
      BranchExchange(m.(instrBase := base), base)
    else if op == 14 || op == 15 then
      var base := Bits4(i, 3);
      BranchExchange(SetReg(m.(instrBase := base), LR_INDEX, m.r[PC_INDEX]), base)
    else
      Fail(m, UnsupportedSubOperation(i))
  }

  // ---------------------------------------------------------------------
  // Formats 12 and 13: load address, add offset to stack pointer

  /** ADD Rd, PC, #imm (bit 11 set) or ADD Rd, SP, #imm: the eight-bit
      immediate times four, added to R15 rounded down to a word or to R13. */
  function LoadAddress(m: Machine, i: bv16): Exec {
    var rd := Bits3(i, 8);
    var offset := 4 * Bits8(i);
    if Flag(i, 0x800) then Done(SetReg(m, rd, Wrap(AlignDown4(m.r[PC_INDEX]) as int + offset)))
    else Done(SetReg(m, rd, Wrap(m.r[SP_INDEX] as int + offset)))
  }

  /** `(i & 127) << 2`: the seven-bit stack offset in bytes. */
  function StackOffset(i: bv16): (r: nat)
    ensures r % 4 == 0 && r <= 508
  {
    4 * ((i & 0x7F) as int)
  }

  /** ADD SP, #imm (bit 7 set) or ADD SP, #-imm. */
  function AddOffsetToStackPointer(m: Machine, i: bv16): Exec {
    if Flag(i, 0x80) then Done(SetReg(m, SP_INDEX, Wrap(m.r[SP_INDEX] as int + StackOffset(i))))
    else Done(SetReg(m, SP_INDEX, Wrap(m.r[SP_INDEX] as int - StackOffset(i))))
  }

  // ---------------------------------------------------------------------
  // Properties

  /** `m'` is `m` with at most register `k` and the four flags changed. */
  predicate RegisterAndFlags(m: Machine, m': Machine, k: RegIndex) {
    m' == m.(r := m.r[k := m'.r[k]], n := m'.n, z := m'.z, c := m'.c, v := m'.v)
  }

  /** N and Z describe register `k`. */
  predicate FlagsDescribe(m: Machine, k: RegIndex) {
    m.n == SignBit(m.r[k]) && (m.z <==> m.r[k] == 0)
  }

  /** `value` and `carry` are what LSL by 0 < n < 32 leaves: x times 2^n
      modulo 2^32, and bit 32 - n of x, the last bit shifted out. */
  predicate LeftShiftResult(x: Word, n: nat, value: Word, carry: bool)
    requires 0 < n < 32
  {
    value == (x * Pow2(n)) % WORD_MODULUS && (carry <==> (x / Pow2(32 - n)) % 2 == 1)
  }

  /** `value` and `carry` are what LSR by 0 < n < 32 leaves: the quotient of
      x by 2^n, and bit n - 1 of x, the last bit shifted out. */
  predicate RightShiftResult(x: Word, n: nat, value: Word, carry: bool)
    requires 0 < n < 32
  {
    value == x / Pow2(n) && (carry <==> (x / Pow2(n - 1)) % 2 == 1)
  }

  /** `value` and `carry` are what an arithmetic shift by 0 < n < 32 leaves:
      the signed value of x divided by 2^n and rounded down, as a word, and
      bit n - 1 of the signed value. */
  predicate ArithmeticShiftResult(x: Word, n: nat, value: Word, carry: bool)
    requires 0 < n < 32
  {
    value == Wrap(Signed(x) / Pow2(n)) && (carry <==> (Signed(x) / Pow2(n - 1)) % 2 == 1)
  }

  /** The shifts complete, write only R[rd], N, Z and C, and leave N and Z
      describing R[rd]; operation 3 throws and changes nothing. LSL #n
      leaves the left shift of R[rs]; LSR #n and ASR #n, which shifts the
      same way, leave its logical right shift. A zero offset leaves R[rs]
      unchanged and, by the C# masking of the counts 32 - 0 and 0 - 1 that
      pick the carry, takes C from bit 0 for LSL and from bit 31 for LSR and
      ASR. */
  lemma MoveShiftedRegisterEffect(m: Machine, i: bv16)
    ensures var e := MoveShiftedRegister(m, i);
      if Bits2(i, 11) == 3 then e == Fail(m, UnsupportedSubOperation(i))
      else && e.outcome == Completed
           && RegisterAndFlags(m, e.state, Bits3(i, 0)) && e.state.v == m.v
           && FlagsDescribe(e.state, Bits3(i, 0))
    ensures var s, op, x, n := MoveShiftedRegister(m, i).state, Bits2(i, 11), m.r[Bits3(i, 3)], Bits5(i, 6);
      && (op == 0 && n > 0 ==> LeftShiftResult(x, n, s.r[Bits3(i, 0)], s.c))
      && (op in {1, 2} && n > 0 ==> RightShiftResult(x, n, s.r[Bits3(i, 0)], s.c))
      && (op < 3 && n == 0 ==>
            s.r[Bits3(i, 0)] == x && (s.c <==> if op == 0 then x % 2 == 1 else x >= SIGN_BIT))
  {
    var op, rd, rs, n := Bits2(i, 11), Bits3(i, 0), Bits3(i, 3), Bits5(i, 6);
    if op < 3 {
      assert MoveShiftedRegister(m, i) == Done(ShiftByImmediate(m, op, rd, rs, n));
      ShiftByImmediateFrame(m, op, rd, rs, n);
      ShiftByImmediateValue(m, op, rd, rs, n);
    }
  }

  lemma ShiftByImmediateFrame(m: Machine, op: nat, rd: RegIndex, rs: RegIndex, n: nat)
    requires op < 3
    ensures var m' := ShiftByImmediate(m, op, rd, rs, n);
      RegisterAndFlags(m, m', rd) && m'.v == m.v && FlagsDescribe(m', rd)
  {
  }

  /** The values the three shifts by an immediate leave. */
  lemma ShiftByImmediateValue(m: Machine, op: nat, rd: RegIndex, rs: RegIndex, n: nat)
    requires op < 3 && n < 32
    ensures var s, x := ShiftByImmediate(m, op, rd, rs, n), m.r[rs];
      && (op == 0 && n > 0 ==> LeftShiftResult(x, n, s.r[rd], s.c))
      && (op != 0 && n > 0 ==> RightShiftResult(x, n, s.r[rd], s.c))
      && (n == 0 ==> s.r[rd] == x && (s.c <==> if op == 0 then x % 2 == 1 else x >= SIGN_BIT))
  {
    if op == 0 {
      ShiftLeftImmediate(m, rd, rs, n);
    } else {
      ShiftRightImmediate(m, op, rd, rs, n);
    }
  }

  lemma ShiftLeftImmediate(m: Machine, rd: RegIndex, rs: RegIndex, n: nat)
    requires n < 32
    ensures var s, x := ShiftByImmediate(m, 0, rd, rs, n), m.r[rs];
      && (n > 0 ==> LeftShiftResult(x, n, s.r[rd], s.c))
      && (n == 0 ==> s.r[rd] == x && (s.c <==> x % 2 == 1))
  {
    var x := m.r[rs];
    ShiftsBelow32(x, n);
    if n == 0 {
      ShiftCountsMasked(x);
    } else {
      ShiftsBelow32(x, 32 - n);
    }
  }

  lemma ShiftRightImmediate(m: Machine, op: nat, rd: RegIndex, rs: RegIndex, n: nat)
    requires op in {1, 2} && n < 32
    ensures var s, x := ShiftByImmediate(m, op, rd, rs, n), m.r[rs];
      && (n > 0 ==> RightShiftResult(x, n, s.r[rd], s.c))
      && (n == 0 ==> s.r[rd] == x && (s.c <==> x >= SIGN_BIT))
  {
    var x := m.r[rs];
    ShiftsBelow32(x, n);
    if n == 0 {
      ShiftCountsMasked(x);
    } else {
      ShiftsBelow32(x, n - 1);
    }
  }

  /** ASR by an immediate gives exactly what LSR by the same immediate gives:
      the encodings differ only in bits 11 and 12. */
  lemma AsrShiftsLogically(m: Machine, i: bv16)
    requires Bits2(i, 11) == 2
    ensures Bits2(i ^ 0x1800, 11) == 1
    ensures MoveShiftedRegister(m, i) == MoveShiftedRegister(m, i ^ 0x1800)
  {
    assert Bits3(i ^ 0x1800, 0) == Bits3(i, 0) && Bits3(i ^ 0x1800, 3) == Bits3(i, 3);
    assert Bits5(i ^ 0x1800, 6) == Bits5(i, 6);
  }

  /** ADD and SUB complete and write only R[rd] and the four flags, N and Z
      describing R[rd]. */
  lemma AddSubtractEffect(m: Machine, i: bv16)
    ensures var e := AddSubtract(m, i);
      && e.outcome == Completed
      && RegisterAndFlags(m, e.state, Bits3(i, 0))
      && FlagsDescribe(e.state, Bits3(i, 0))
  {
  }

  /** ADD into a register other than its first operand: the result is the
      wrapped sum, C is the unsigned carry and V the signed overflow. */
  lemma AddRegisterFlags(m: Machine, i: bv16)
    requires !Flag(i, 0x200) && Bits3(i, 0) != Bits3(i, 3)
    ensures var e := AddSubtract(m, i);
      var a := m.r[Bits3(i, 3)];
      var b := AddSubtractOperand(m, i);
      && e.state.r[Bits3(i, 0)] == Wrap(a as int + b)
      && (e.state.c <==> a as int + b >= WORD_MODULUS)
      && (e.state.v <==> !InSigned32(Signed(a) + Signed(b)))
  {
    var e := AddSubtract(m, i);
    var a := m.r[Bits3(i, 3)];
    var b := AddSubtractOperand(m, i);
    var d := Wrap(a as int + b);
    assert e.state.r[Bits3(i, 0)] == d;
    assert e.state.c == AddCarry(a, b, d) && e.state.v == AddOverflow(a, b, d);
    AddCarryIsUnsignedCarry(a, b);
    AddOverflowIsSignedOverflow(a, b);
  }

  /** SUB into a register other than its first operand: the result is the
      wrapped difference and C and V are AddCarry and AddOverflow of the
      three values, not the borrow and signed overflow of a subtraction. */
  lemma SubtractRegisterFlags(m: Machine, i: bv16)
    requires Flag(i, 0x200) && Bits3(i, 0) != Bits3(i, 3)
    ensures var e := AddSubtract(m, i);
      var a := m.r[Bits3(i, 3)];
      var b := AddSubtractOperand(m, i);
      var d := Wrap(a as int - b);
      && e.state.r[Bits3(i, 0)] == d
      && e.state.c == AddCarry(a, b, d) && e.state.v == AddOverflow(a, b, d)
  {
  }

  /** For example SUB R0, R1, R2 with R1 = 5 and R2 = 3 clears C although
      nothing is borrowed. */
  lemma SubtractWithoutBorrowClearsCarry(m: Machine)
    requires m.r[1] == 5 && m.r[2] == 3
    ensures AddSubtract(m, 0x1A88).state.r[0] == 2
    ensures !AddSubtract(m, 0x1A88).state.c
  {
    assert Bits3(0x1A88, 0) == 0 && Bits3(0x1A88, 3) == 1 && Bits3(0x1A88, 6) == 2;
  }

  /** When the destination is also the first operand, C and V are computed
      from the result in place of that operand. */
  lemma AddSubtractFlagsReadResult(m: Machine, i: bv16)
    requires Bits3(i, 0) == Bits3(i, 3)
    ensures var e := AddSubtract(m, i);
      var d := e.state.r[Bits3(i, 0)];
      var b := AddSubtractOperand(m, i);
      e.state.c == AddCarry(d, b, d) && e.state.v == AddOverflow(d, b, d)
  {
  }

  /** The immediate format completes and writes at most R[rd] and the flags. */
  lemma MoveCompareAddSubtractImmediateEffect(m: Machine, i: bv16)
    ensures var e := MoveCompareAddSubtractImmediate(m, i);
      e.outcome == Completed && RegisterAndFlags(m, e.state, Bits3(i, 8))
  {
    var op := Bits2(i, 11);
    if op == 0 {} else if op == 1 {} else if op == 2 {} else {}
  }

  /** MOV Rd, #imm: R[rd] is the immediate, N is cleared, Z tells whether the
      immediate is 0, C and V are kept. */
  lemma MoveImmediate(m: Machine, i: bv16)
    requires Bits2(i, 11) == 0
    ensures var e := MoveCompareAddSubtractImmediate(m, i);
      && e.state.r[Bits3(i, 8)] == Bits8(i) && !e.state.n && (e.state.z <==> Bits8(i) == 0)
      && e.state.c == m.c && e.state.v == m.v
  {
  }

  /** CMP Rd, #imm writes no register; Z tells equality, C that nothing is
      borrowed and V that the signed difference overflows. */
  lemma CompareImmediate(m: Machine, i: bv16)
    requires Bits2(i, 11) == 1
    ensures var e := MoveCompareAddSubtractImmediate(m, i);
      var a := m.r[Bits3(i, 8)];
      var imm := Bits8(i);
      && e.state.r == m.r && (e.state.z <==> a == imm)
      && (e.state.c <==> a >= imm)
      && (e.state.v <==> !InSigned32(Signed(a) - Signed(imm)))
  {
    var a := m.r[Bits3(i, 8)];
    var imm := Bits8(i);
    SubCarryIsNoBorrow(a, imm);
    SubOverflowIsSignedOverflow(a, imm);
  }

  /** ADD Rd, #imm: the wrapped sum, with N and Z describing it, */
  lemma AddImmediate(m: Machine, i: bv16)
    requires Bits2(i, 11) == 2
    ensures var e := MoveCompareAddSubtractImmediate(m, i);
      var a := m.r[Bits3(i, 8)];
      var imm := Bits8(i);
      e.state.r[Bits3(i, 8)] == Wrap(a as int + imm) && FlagsDescribe(e.state, Bits3(i, 8))
  {
  }

  /** with C the unsigned carry out of bit 31 and V the signed overflow. */
  lemma AddImmediateCarryOverflow(m: Machine, i: bv16)
    requires Bits2(i, 11) == 2
    ensures var e := MoveCompareAddSubtractImmediate(m, i);
      var a := m.r[Bits3(i, 8)];
      var imm := Bits8(i);
      && (e.state.c <==> a as int + imm >= WORD_MODULUS)
      && (e.state.v <==> !InSigned32(Signed(a) + Signed(imm)))
  {
    var a := m.r[Bits3(i, 8)];
    var imm := Bits8(i);
    AddCarryIsUnsignedCarry(a, imm);
    AddOverflowIsSignedOverflow(a, imm);
  }

  /** SUB Rd, #imm: the wrapped difference, with N and Z describing it, */
  lemma SubtractImmediate(m: Machine, i: bv16)
    requires Bits2(i, 11) == 3
    ensures var e := MoveCompareAddSubtractImmediate(m, i);
      var a := m.r[Bits3(i, 8)];
      e.state.r[Bits3(i, 8)] == Wrap(a as int - Bits8(i)) && FlagsDescribe(e.state, Bits3(i, 8))
  {
  }

  /** the signed overflow as for CMP, */
  lemma SubtractImmediateOverflow(m: Machine, i: bv16)
    requires Bits2(i, 11) == 3
    ensures var e := MoveCompareAddSubtractImmediate(m, i);
      var a := m.r[Bits3(i, 8)];
      var imm := Bits8(i);
      e.state.v <==> !InSigned32(Signed(a) - Signed(imm))
  {
    var a := m.r[Bits3(i, 8)];
    var imm := Bits8(i);
    SubOverflowIsSignedOverflow(a, imm);
  }

  /** but C (from AddCarry) is set exactly when bit 31 goes from 1 to 0. */
  lemma SubtractImmediateCarry(m: Machine, i: bv16)
    requires Bits2(i, 11) == 3
    ensures var e := MoveCompareAddSubtractImmediate(m, i);
      var a := m.r[Bits3(i, 8)];
      e.state.c <==> SignBit(a) && !SignBit(e.state.r[Bits3(i, 8)])
  {
  }

  /** ADD #imm followed by SUB #imm on the same register gives the register
      back. */
  lemma AddThenSubtractImmediate(m: Machine, i: bv16)
    requires Bits2(i, 11) == 2
    ensures Bits2(i | 0x800, 11) == 3
    ensures MoveCompareAddSubtractImmediate(MoveCompareAddSubtractImmediate(m, i).state, i | 0x800).state.r == m.r
  {
    var rd, imm := Bits3(i, 8), Bits8(i);
    SubtractBitFields(i);
    var m1 := MoveCompareAddSubtractImmediate(m, i).state;
    assert m1.r == m.r[rd := Wrap(m.r[rd] as int + imm)];
  }

  /** Setting bit 11 of ADD Rd, #imm keeps Rd and the immediate and makes it
      SUB Rd, #imm. */
  lemma SubtractBitFields(i: bv16)
    requires Bits2(i, 11) == 2
    ensures Bits2(i | 0x800, 11) == 3 && Bits3(i | 0x800, 8) == Bits3(i, 8) && Bits8(i | 0x800) == Bits8(i)
  {
  }

  /** Every ALU operation writes at most R[rd] and C. */
  lemma AluOperationFrame(m: Machine, op: nat, rd: RegIndex, rs: RegIndex)
    requires op < 7
    ensures var m' := AluOperation(m, op, rd, rs);
      m' == m.(r := m.r[rd := m'.r[rd]], c := m'.c)
  {
    if op == 0 {} else if op == 1 {} else if op == 2 {} else if op == 3 {}
    else if op == 4 {} else if op == 5 {} else {}
  }

  /** Operation 7 throws and changes nothing; the other seven complete,
      write only R[rd], N, Z and C, and leave V alone and N and Z
      describing R[rd]. */
  lemma AluOperationsEffect(m: Machine, i: bv16)
    ensures var e := AluOperations(m, i);
      if Bits3(i, 6) == 7 then e == Fail(m, UnsupportedSubOperation(i))
      else && e.outcome == Completed
           && RegisterAndFlags(m, e.state, Bits3(i, 0)) && e.state.v == m.v
           && FlagsDescribe(e.state, Bits3(i, 0))
  {
    if Bits3(i, 6) != 7 {
      AluOperationFrame(m, Bits3(i, 6), Bits3(i, 0), Bits3(i, 3));
    }
  }

  /** Bit 9 of an ALU instruction is never read: ORR, MUL, BIC and MVN run as
      AND, EOR, LSL and LSR, and TST, NEG, CMP and CMN as ASR, ADC and SBC. */
  lemma AluIgnoresBit9(m: Machine, i: bv16)
    requires Bits3(i, 6) != 7
    ensures Bits3(i ^ 0x200, 6) != 7
    ensures AluOperations(m, i) == AluOperations(m, i ^ 0x200)
  {
    assert Bits3(i ^ 0x200, 0) == Bits3(i, 0) && Bits3(i ^ 0x200, 3) == Bits3(i, 3);
    assert Bits3(i ^ 0x200, 6) == Bits3(i, 6);
  }

  /** ADC: the wrapped sum of R[rd], R[rs] and the carry, with C the carry
      out of the exact sum, except that all-ones operands with a carry in
      leave C clear. */
  lemma AddWithCarryFlags(m: Machine, rd: RegIndex, rs: RegIndex)
    ensures var m' := AddWithCarry(m, rd, rs);
      var a, b := m.r[rd], m.r[rs];
      && m'.r[rd] == Wrap(a as int + b + CarryIn(m))
      && (m'.c <==> a as int + b + CarryIn(m) >= WORD_MODULUS
                    && !(m.c && a == 0xFFFF_FFFF && b == 0xFFFF_FFFF))
  {
  }

  /** SBC: the wrapped difference of R[rd] and b = (R[rs] + C) mod 2^32,
      with C set exactly when R[rd] < b. The carry is added, and wrapped,
      before the comparison: with R[rs] = 0xFFFFFFFF and C set, b is 0 and C
      comes out clear although the full subtraction borrows. Apart from that
      case C is set on a borrow, the opposite of the ARM convention. */
  lemma SubtractWithCarryFlags(m: Machine, rd: RegIndex, rs: RegIndex)
    ensures var m' := SubtractWithCarry(m, rd, rs);
      var b := Wrap(m.r[rs] as int + CarryIn(m));
      && m'.r[rd] == Wrap(m.r[rd] as int - b)
      && (m'.c <==> m.r[rd] < b)
  {
  }

  /** LSL Rd, Rs by the low byte k of R[rs]: k = 0 changes nothing; below
      32 R[rd] is multiplied by 2^k modulo 2^32 and C is bit 32 - k, the
      last bit shifted out; k = 32 leaves 0 with C from bit 0; above 32 it
      leaves 0 with C clear. Nothing else changes. */
  lemma ShiftLeftByRegisterValue(m: Machine, rd: RegIndex, rs: RegIndex)
    ensures var m', k, x := ShiftLeftByRegister(m, rd, rs), LowByte(m.r[rs]), m.r[rd];
      && m' == m.(r := m.r[rd := m'.r[rd]], c := m'.c)
      && (k == 0 ==> m' == m)
      && (0 < k < 32 ==> LeftShiftResult(x, k, m'.r[rd], m'.c))
      && (k == 32 ==> m'.r[rd] == 0 && (m'.c <==> x % 2 == 1))
      && (k > 32 ==> m'.r[rd] == 0 && !m'.c)
  {
    var k := LowByte(m.r[rs]);
    if 0 < k < 32 {
      ShiftsBelow32(m.r[rd], k);
      ShiftsBelow32(m.r[rd], 32 - k);
    }
  }

  /** LSR Rd, Rs by the low byte k of R[rs]: k = 0 changes nothing; below
      32 R[rd] is divided by 2^k and C is bit k - 1; k = 32 leaves 0 with C
      from bit 31; above 32 it leaves 0 with C clear. Nothing else changes. */
  lemma ShiftRightByRegisterValue(m: Machine, rd: RegIndex, rs: RegIndex)
    ensures var m', k, x := ShiftRightByRegister(m, rd, rs), LowByte(m.r[rs]), m.r[rd];
      && m' == m.(r := m.r[rd := m'.r[rd]], c := m'.c)
      && (k == 0 ==> m' == m)
      && (0 < k < 32 ==> RightShiftResult(x, k, m'.r[rd], m'.c))
      && (k == 32 ==> m'.r[rd] == 0 && (m'.c <==> x >= SIGN_BIT))
      && (k > 32 ==> m'.r[rd] == 0 && !m'.c)
  {
    var k := LowByte(m.r[rs]);
    if 0 < k < 32 {
      ShiftsBelow32(m.r[rd], k);
      ShiftsBelow32(m.r[rd], k - 1);
    }
  }

  /** ASR Rd, Rs by the low byte k of R[rs]: k = 0 changes nothing; below
      32 R[rd] becomes its signed value divided by 2^k, rounded down, and C
      is bit k - 1 of the signed value; from 32 on R[rd] is filled with its
      sign bit and C is cleared. Nothing else changes. */
  lemma ArithmeticShiftByRegisterValue(m: Machine, rd: RegIndex, rs: RegIndex)
    ensures var m', k, x := ArithmeticShiftByRegister(m, rd, rs), LowByte(m.r[rs]), m.r[rd];
      && m' == m.(r := m.r[rd := m'.r[rd]], c := m'.c)
      && (k == 0 ==> m' == m)
      && (0 < k < 32 ==> ArithmeticShiftResult(x, k, m'.r[rd], m'.c))
      && (k >= 32 ==> m'.r[rd] == (if SignBit(x) then 0xFFFF_FFFF else 0) && !m'.c)
  {
    var k := LowByte(m.r[rs]);
    if 0 < k < 32 {
      var x := m.r[rd];
      SarIsFloorDivision(x, k);
      SarIsFloorDivision(x, k - 1);
      WrapKeepsParity(Signed(x) / Pow2(k - 1));
    }
  }

  /** The hi-register ADD and MOV write their result into R[lo + 8] and
      then go through AfterHighWrite. */
  lemma HighRegisterWriteDecoding(m: Machine, i: bv16)
    requires Bits4(i, 6) in {2, 3, 10, 11}
    ensures var op, lo, src := Bits4(i, 6), Bits3(i, 0), Bits3(i, 3);
      var value :=
        if op == 2 then Wrap(m.r[lo + 8] as int + m.r[src])
        else if op == 3 then Wrap(m.r[lo + 8] as int + m.r[src + 8])
        else if op == 10 then m.r[src]
        else m.r[src + 8];
      HiRegisterOperationsBranchExchange(m, i) == AfterHighWrite(SetReg(m, lo + 8, value), lo)
  {
    var op := Bits4(i, 6);
    if op == 2 {} else if op == 3 {} else if op == 10 {} else {}
  }

  /** The hi-register ADD and MOV never change a flag. Into R8..R14 they
      complete and write only that register; into R15 they jump to the
      value with bit 0 cleared. */
  lemma HighRegisterWrite(m: Machine, lo: nat, value: Word)
    requires lo < 8
    ensures var e := AfterHighWrite(SetReg(m, lo + 8, value), lo);
      && (e.state.n, e.state.z, e.state.c, e.state.v) == (m.n, m.z, m.c, m.v)
      && (lo != 7 ==> e == Done(m.(r := m.r[lo + 8 := value])))
      && (lo == 7 ==> e.state.pc == ClearBit0(value) && e.state.r[PC_INDEX] == Wrap(e.state.pc + 2))
  {
    if lo == 7 {
      JumpEffect(SetReg(m, lo + 8, value), ClearBit0(value));
    }
  }

  /** MOV PC, Rs jumps to R[rs] with bit 0 cleared. */
  lemma MoveToProgramCounter(m: Machine, i: bv16)
    requires Bits4(i, 6) == 10 && Bits3(i, 0) == 7
    ensures var e := HiRegisterOperationsBranchExchange(m, i);
      e == Jump(m.(r := m.r[PC_INDEX := m.r[Bits3(i, 3)]]), ClearBit0(m.r[Bits3(i, 3)]))
  {
  }

  /** The hi-register CMP writes no register; Z tells equality, C that
      nothing is borrowed, V that the signed difference overflows. */
  lemma HighRegisterCompare(m: Machine, lhs: Word, rhs: Word)
    ensures var m' := Compare(m, lhs, rhs);
      && m' == m.(n := m'.n, z := m'.z, c := m'.c, v := m'.v)
      && (m'.z <==> lhs == rhs) && (m'.c <==> lhs >= rhs)
      && (m'.v <==> !InSigned32(Signed(lhs) - Signed(rhs)))
  {
    SubCarryIsNoBorrow(lhs, rhs);
    SubOverflowIsSignedOverflow(lhs, rhs);
  }

  /** BX to an odd address enters Thumb state and jumps to the address with
      bit 0 cleared; BX to an even address throws with R15 already holding
      it. */
  lemma BranchExchangeEffect(m: Machine, base: RegIndex)
    ensures var e := BranchExchange(m, base);
      var target := m.r[base];
      if target % 2 == 1 then
        && e.state.t && e.state.pc == target - 1
        && e.state.r == m.r[PC_INDEX := Wrap(target as int + 1)]
        && (e.state.n, e.state.z, e.state.c, e.state.v, e.state.mem) == (m.n, m.z, m.c, m.v, m.mem)
      else e == Fail(m.(r := m.r[PC_INDEX := target]), IllegalStateTransition)
  {
    var m1 := SetReg(m, PC_INDEX, m.r[base]);
    if m.r[base] % 2 == 1 {
      JumpEffect(m1.(t := true), ClearBit0(m1.r[PC_INDEX]));
    }
  }

  /** BX and BLX read the register number from bits 3..6, record it in
      `instrBase`, and BLX first saves R15 in R14. */
  lemma BranchExchangeDecoding(m: Machine, i: bv16)
    requires Bits4(i, 6) >= 12
    ensures var base := Bits4(i, 3);
      var m1 := m.(instrBase := base);
      HiRegisterOperationsBranchExchange(m, i) ==
        if Bits4(i, 6) <= 13 then BranchExchange(m1, base)
        else BranchExchange(m1.(r := m.r[LR_INDEX := m.r[PC_INDEX]]), base)
  {
    var op := Bits4(i, 6);
    if op == 12 {} else if op == 13 {} else if op == 14 {} else {}
  }

  /** BLX saves R15 in R14 before reading the target, so BLX LR branches to
      the old R15 instead of the old R14. */
  lemma BranchLinkExchangeTarget(m: Machine, base: RegIndex)
    ensures var target := if base == LR_INDEX then m.r[PC_INDEX] else m.r[base];
      var e := BranchExchange(m.(r := m.r[LR_INDEX := m.r[PC_INDEX]]), base);
      && e.state.r[LR_INDEX] == m.r[PC_INDEX]
      && (target % 2 == 1 ==> e.state.pc == target - 1 && e.state.t)
      && (target % 2 == 0 ==> e.outcome == Failed(IllegalStateTransition))
  {
    BranchExchangeEffect(m.(r := m.r[LR_INDEX := m.r[PC_INDEX]]), base);
  }

  /** Operations 0, 4 and 8 of the hi-register format throw and change nothing. */
  lemma HighRegisterUndefined(m: Machine, i: bv16)
    requires Bits4(i, 6) in {0, 4, 8}
    ensures HiRegisterOperationsBranchExchange(m, i) == Fail(m, UnsupportedSubOperation(i))
  {
  }

  /** ADD Rd, PC, #imm gives a word-aligned address; both forms write only R[rd]. */
  lemma LoadAddressEffect(m: Machine, i: bv16)
    ensures var e := LoadAddress(m, i);
      var rd := Bits3(i, 8);
      && e == Done(m.(r := m.r[rd := e.state.r[rd]]))
      && (Flag(i, 0x800) ==> e.state.r[rd] % 4 == 0)
  {
    var rd := Bits3(i, 8);
    if Flag(i, 0x800) {
      var sum := AlignDown4(m.r[PC_INDEX]) as int + 4 * Bits8(i);
      WrapKeepsAlignment(sum);
      assert LoadAddress(m, i) == Done(SetReg(m, rd, Wrap(sum)));
    } else {
      assert LoadAddress(m, i) == Done(SetReg(m, rd, Wrap(m.r[SP_INDEX] as int + 4 * Bits8(i))));
    }
  }

  /** ADD SP, #imm and ADD SP, #-imm with the same immediate undo each
      other: the encodings differ only in bit 7. */
  lemma StackAdjustmentsCancel(m: Machine, i: bv16)
    ensures Flag(i ^ 0x80, 0x80) != Flag(i, 0x80)
    ensures AddOffsetToStackPointer(AddOffsetToStackPointer(m, i).state, i ^ 0x80) == Done(m)
  {
    var k := StackOffset(i);
    StackFlipFields(i);
    var sp := m.r[SP_INDEX];
    WrapUndoesOffset(sp, k);
    var m1 := AddOffsetToStackPointer(m, i).state;
    if Flag(i, 0x80) {
      assert m1 == SetReg(m, SP_INDEX, Wrap(sp as int + k));
      assert AddOffsetToStackPointer(m1, i ^ 0x80) == Done(SetReg(m1, SP_INDEX, sp));
    } else {
      assert m1 == SetReg(m, SP_INDEX, Wrap(sp as int - k));
      assert AddOffsetToStackPointer(m1, i ^ 0x80) == Done(SetReg(m1, SP_INDEX, sp));
    }
    assert m1.r[SP_INDEX := sp] == m.r;
  }

  /** Flipping bit 7 flips the sign flag and keeps the seven-bit offset. */
  lemma StackFlipFields(i: bv16)
    ensures StackOffset(i ^ 0x80) == StackOffset(i)
    ensures Flag(i ^ 0x80, 0x80) == !Flag(i, 0x80)
  {
  }
}
