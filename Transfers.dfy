/** The load and store handlers of the CPU (CortexM4-CSharp/CPU.cs:152-200 and
    893-1218): single-register transfers through the MMU, and the
    register-list transfers of PUSH, POP, STMIA and LDMIA, which visit the
    list one register at a time and advance the address after every register
    they transfer. A transfer that throws keeps what was done before it. */
module Transfers {
  import opened Words
  import opened Faults
  import opened Utils
  import opened Machines
  import Memory

  // ---------------------------------------------------------------------
  // Single-register transfers

  /** `R[(i >> 3) & 7] + R[(i >> 6) & 7]`, wrapped: the address of the
      register-offset formats, which three other formats use as well. */
  function RegisterOffsetAddress(m: Machine, i: bv16): Word {
    Wrap(m.r[Bits3(i, 3)] as int + m.r[Bits3(i, 6)])
  }

  /** LDR Rd, [PC, #imm]: the word at R15 rounded down to a word plus four
      times the eight-bit immediate. */
  function PcRelativeLoad(m: Machine, i: bv16): Exec {
    Load32(m, Bits3(i, 8), Wrap(AlignDown4(m.r[PC_INDEX]) as int + 4 * Bits8(i)))
  }

  /** STR, STRB, LDR and LDRB with a register offset, chosen by bits 10..11. */
  function LoadStoreWithRegisterOffset(m: Machine, i: bv16): Exec {
    var rd := Bits3(i, 0);
    var address := RegisterOffsetAddress(m, i);
    var op := Bits2(i, 10);
    if op == 0 then Store32(m, address, m.r[rd])
    else if op == 1 then Store8(m, address, LowByte(m.r[rd]))
    else if op == 2 then Load32(m, rd, address)
    else Load8(m, rd, address)
  }

  /** STRH, LDRH, LDSB and LDSH with a register offset; the two "signed"
      loads use the unsigned reads. */
  function LoadStoreSignExtendedByteHalfword(m: Machine, i: bv16): Exec {
    var rd := Bits3(i, 0);
    var address := RegisterOffsetAddress(m, i);
    var op := Bits2(i, 10);
    if op == 0 then Store16(m, address, ToHalfWord(m.r[rd])[0])
    else if op == 1 then Load16(m, rd, address)
    else if op == 2 then Load8(m, rd, address)
    else Load16s(m, rd, address)
  }

  /** The immediate-offset format, chosen by bits 11..12. STR, LDR and STRB
      use the register-offset address (bits 6..8 read as a register); only
      LDRB adds the five-bit immediate. */
  function LoadStoreWithImmediateOffset(m: Machine, i: bv16): Exec {
    var rd := Bits3(i, 0);
    var op := Bits2(i, 11);
    if op == 0 then Store32(m, RegisterOffsetAddress(m, i), m.r[rd])
    else if op == 2 then Load32(m, rd, RegisterOffsetAddress(m, i))
    else if op == 1 then Store8(m, RegisterOffsetAddress(m, i), LowByte(m.r[rd]))
    else Load8(m, rd, Wrap(m.r[Bits3(i, 3)] as int + Bits5(i, 6)))
  }

  /** The halfword immediate-offset format: bit 11 set stores the low
      halfword, bit 11 clear stores the low byte, both at the
      register-offset address. */
  function LoadStoreHalfwordImmediateOffset(m: Machine, i: bv16): Exec {
    var rd := Bits3(i, 0);
    var address := RegisterOffsetAddress(m, i);
    if Flag(i, 0x800) then Store16(m, address, ToHalfWord(m.r[rd])[0])
    else Store8(m, address, LowByte(m.r[rd]))
  }

  /** The SP-relative format: the base is `R[(i >> 3) & 7]` and the offset
      four times bits 6..10; bit 11 set stores, clear loads. */
  function SpRelativeLoadStore(m: Machine, i: bv16): Exec {
    var rd := Bits3(i, 0);
    var address := Wrap(m.r[Bits3(i, 3)] as int + 4 * Bits5(i, 6));
    if Flag(i, 0x800) then Store32(m, address, m.r[rd])
    else Load32(m, rd, address)
  }

  // ---------------------------------------------------------------------
  // Register lists

  /** One `PushReg(instruction, ref address, val, reg)` call: whether
      `instruction & val` is non-zero, and the register it transfers. */
  datatype Slot = Slot(selected: bool, reg: RegIndex)

  /** `(x & (1 << j)) != 0`: bit `j` of a halfword is set. */
  predicate HasBit(x: bv16, j: nat)
    requires j < 16
  {
    x & (1 << j) != 0
  }

  /** R0..R7, selected by bits 0..7: the eight calls `PushReg(instruction,
      ref address, 1 << j, j)` for j = 0..7. */
  function LowSlots(i: bv16): (r: seq<Slot>)
    ensures |r| == 8
  {
    seq(8, j requires 0 <= j < 8 => Slot(HasBit(i, j), j))
  }

  /** LR, selected by bit 8: `PushReg(instruction, ref address, 0x100, 14)`. */
  function LrSlot(i: bv16): Slot {
    Slot(HasBit(i, 8), LR_INDEX)
  }

  /** The state and the address after a run of transfers. */
  datatype Transfer = Transfer(exec: Exec, address: Word)

  /** The number of slots `i` selects. */
  function Selected(slots: seq<Slot>): nat {
    if slots == [] then 0
    else (if slots[0].selected then 1 else 0) + Selected(slots[1..])
  }

  /** `PushReg` over `slots` in order: every selected register is stored
      at the current address, which then advances by four. */
  function StoreRegisters(m: Machine, slots: seq<Slot>, address: Word): Transfer
    decreases |slots|
  {
    if slots == [] then Transfer(Done(m), address)
    else if !slots[0].selected then StoreRegisters(m, slots[1..], address)
    else
      var e := Store32(m, address, m.r[slots[0].reg]);
      if e.outcome.Failed? then Transfer(e, address)
      else StoreRegisters(e.state, slots[1..], Wrap(address as int + 4))
  }

  /** `PopReg` over `slots` in order: every selected register is loaded
      from the current address, which then advances by four. */
  function LoadRegisters(m: Machine, slots: seq<Slot>, address: Word): Transfer
    decreases |slots|
  {
    if slots == [] then Transfer(Done(m), address)
    else if !slots[0].selected then LoadRegisters(m, slots[1..], address)
    else
      var e := Load32(m, slots[0].reg, address);
      if e.outcome.Failed? then Transfer(e, address)
      else LoadRegisters(e.state, slots[1..], Wrap(address as int + 4))
  }

  /** `cpuBitsSet[x]` as `InitCpuBitsSet` fills it: the number of `j < n`
      with `(x & (1 << j)) != 0`. */
  function BitCount(x: bv16, n: nat): nat
    requires n <= 16
  {
    if n == 0 then 0
    else BitCount(x, n - 1) + (if HasBit(x, n - 1) then 1 else 0)
  }

  /** After the transfers selected by `i`: a failure as it was, or the
      completed state with register `k` set to `value`. */
  function ThenSet(t: Transfer, k: RegIndex, value: Word): Exec {
    if t.exec.outcome.Failed? then t.exec else Done(SetReg(t.exec.state, k, value))
  }

  /** PUSH and POP, with the mode taken from bit 8 (LR or PC in the list)
      and from bit 2 (POP), which is also the list bit of R2. The stack
      pointer moves by four bytes for every register in the low list, plus
      four for LR or PC:
      PUSH {list} from R13 - 4 * count, PUSH {list, LR} from
      R13 - 4 - 4 * count (LR stored last), POP {list} to R13 + 4 * count
      and POP {list, PC} to R13 + 4 + 4 * count. */
  function PushPopRegisters(m: Machine, i: bv16): Exec {
    var mode := (if Flag(i, 0x100) then 1 else 0) + (if Flag(i, 0x4) then 2 else 0);
    var sp := m.r[SP_INDEX] as int;
    if mode == 0 then PushSlots(m, LowSlots(i), Wrap(sp - 4 * ListCount(i)))
    else if mode == 1 then PushSlots(m, LowSlots(i) + [LrSlot(i)], Wrap(sp - 4 - 4 * ListCount(i)))
    else if mode == 2 then PopSlots(m, LowSlots(i), Wrap(sp + 4 * ListCount(i)))
    else PopSlotsPc(m, LowSlots(i), Wrap(sp + 4 + 4 * ListCount(i)))
  }

  /** R0..R7: the registers a list can name besides LR or PC. */
  const LOW_REGISTERS: nat := 8

  /** `cpuBitsSet[i & 0xFF]`: the number of low registers in the list. */
  function ListCount(i: bv16): nat {
    BitCount(i & 0xFF, LOW_REGISTERS)
  }

  /** The stores of a PUSH: `slots` upwards from the new stack pointer `sp`
      rounded down to a word, then R13 set to `sp` once every store has
      completed. */
  function PushSlots(m: Machine, slots: seq<Slot>, sp: Word): Exec {
    ThenSet(StoreRegisters(m, slots, AlignDown4(sp)), SP_INDEX, sp)
  }

  /** The loads of a POP: `slots` upwards from R13 rounded down to a word,
      then R13 set to `sp` once every load has completed. */
  function PopSlots(m: Machine, slots: seq<Slot>, sp: Word): Exec {
    ThenSet(LoadRegisters(m, slots, AlignDown4(m.r[SP_INDEX])), SP_INDEX, sp)
  }

  /** The loads of a POP with PC: `slots` as in PopSlots, then PopPc from the
      next address. */
  function PopSlotsPc(m: Machine, slots: seq<Slot>, sp: Word): Exec {
    var t := LoadRegisters(m, slots, AlignDown4(m.r[SP_INDEX]));
    if t.exec.outcome.Failed? then t.exec
    else PopPc(t.exec.state, t.address, sp)
  }

  /** The PC part of POP {list, PC}: `PopReg` into R15 from `address`, bit 0
      cleared, then `PC = R15; R15 += 2`, R13 set to `sp`, and the queue
      refilled. */
  function PopPc(m: Machine, address: Word, sp: Word): Exec {
    match Memory.Read32(m.mem, address)
    case Err(f) => Fail(m, f)
    case Ok(w) =>
      var m2 := SetReg(m, PC_INDEX, ClearBit0(w));
      var m3 := m2.(pc := m2.r[PC_INDEX]);
      var m4 := SetReg(m3, PC_INDEX, Wrap(m3.r[PC_INDEX] as int + 2));
      Prefetch(SetReg(m4, SP_INDEX, sp))
  }

  /** STMIA Rb!, {list} (bit 11 set), which writes back R[rb] + 4 * count,
      and LDMIA Rb!, {list}, which writes back the final address only when
      Rb is not in the list. */
  function MultipleLoadStore(m: Machine, i: bv16): Exec {
    var rb := Bits3(i, 8);
    if Flag(i, 0x800) then StoreBlock(m, LowSlots(i), rb, Wrap(m.r[rb] as int + 4 * ListCount(i)))
    else LoadBlock(m, LowSlots(i), rb, !HasBit(i, rb))
  }

  /** The stores of STMIA: `slots` upwards from R[rb] rounded down to a word,
      then R[rb] set to `wb` once every store has completed. */
  function StoreBlock(m: Machine, slots: seq<Slot>, rb: RegIndex, wb: Word): Exec {
    ThenSet(StoreRegisters(m, slots, AlignDown4(m.r[rb])), rb, wb)
  }

  /** The loads of LDMIA: `slots` upwards from R[rb] rounded down to a word,
      then, when `writeBack` holds, R[rb] set to the final address. */
  function LoadBlock(m: Machine, slots: seq<Slot>, rb: RegIndex, writeBack: bool): Exec {
    var t := LoadRegisters(m, slots, AlignDown4(m.r[rb]));
    if writeBack then ThenSet(t, rb, t.address) else t.exec
  }

  // ---------------------------------------------------------------------
  // Properties of the register-list transfers

  /** Bit `k` of the low byte of `i` is set: the list names R`k`. */
  predicate InLowList(i: bv16, k: RegIndex) {
    k < 8 && HasBit(i, k)
  }

  /** Whether a run over `slots` transfers register `k`. */
  predicate Lists(slots: seq<Slot>, k: RegIndex) {
    slots != [] && ((slots[0].reg == k && slots[0].selected) || Lists(slots[1..], k))
  }

  /** Counting the selected slots of two runs one after the other adds up. */
  lemma {:induction false} SelectedAppend(a: seq<Slot>, b: seq<Slot>)
    ensures Selected(a + b) == Selected(a) + Selected(b)
  {
    if a == [] {
      assert a + b == b;
    } else {
      assert (a + b)[0] == a[0] && (a + b)[1..] == a[1..] + b;
      SelectedAppend(a[1..], b);
    }
  }

  /** Storing changes memory only, and a run that completes has advanced the
      address by four for each selected slot. */
  lemma {:induction false} StoreRegistersEffect(m: Machine, slots: seq<Slot>, address: Word)
    ensures var t := StoreRegisters(m, slots, address);
      && t.exec.state == m.(mem := t.exec.state.mem)
      && (t.exec.outcome.Completed? ==> t.address == Wrap(address as int + 4 * Selected(slots)))
    decreases |slots|
  {
    if slots != [] {
      if !slots[0].selected {
        StoreRegistersEffect(m, slots[1..], address);
      } else {
        var e := Store32(m, address, m.r[slots[0].reg]);
        Store32Frame(m, address, m.r[slots[0].reg]);
        if e.outcome.Completed? {
          StoreRegistersEffect(e.state, slots[1..], Wrap(address as int + 4));
          WrapOfWrappedSum(address as int + 4, 4 * Selected(slots[1..]));
        }
      }
    }
  }

  /** A run of stores whose frame lies inside the code array completes and
      leaves every code byte below its start as it was. */
  lemma {:induction false} StoreRegistersKeepsBelow(m: Machine, slots: seq<Slot>, address: Word)
    requires address + 4 * Selected(slots) <= REGION_SIZE
    ensures var t := StoreRegisters(m, slots, address);
      && t.exec.outcome.Completed?
      && forall a :: 0 <= a < address ==> t.exec.state.mem.code[a] == m.mem.code[a]
    decreases |slots|
  {
    if slots != [] {
      if !slots[0].selected {
        StoreRegistersKeepsBelow(m, slots[1..], address);
      } else {
        Memory.Write32ThenRead32(m.mem, address, m.r[slots[0].reg]);
        var e := Store32(m, address, m.r[slots[0].reg]);
        assert Wrap(address as int + 4) == address + 4;
        StoreRegistersKeepsBelow(e.state, slots[1..], address + 4);
      }
    }
  }

  /** A run of stores whose frame lies inside the code array leaves at the
      address advanced past the `before` selected slots ahead of `j` the
      register that selected slot `j` carries. */
  lemma {:induction false} StoreRegistersWrites(m: Machine, slots: seq<Slot>, address: Word, j: nat, before: nat)
    requires address + 4 * Selected(slots) <= REGION_SIZE
    requires j < |slots| && slots[j].selected && Selected(slots[..j]) == before
    ensures var t := StoreRegisters(m, slots, address);
      t.exec.outcome.Completed? && WordAt(t.exec.state.mem, Wrap(address as int + 4 * before), m.r[slots[j].reg])
    decreases |slots|
  {
    if j == 0 {
      assert slots[..0] == [];
      StoreRegistersWritesFirst(m, slots, address);
    } else {
      assert slots[1..][j - 1] == slots[j];
      SelectedPrefixStep(slots, j);
      if !slots[0].selected {
        StoreRegistersWrites(m, slots[1..], address, j - 1, before);
      } else {
        var v := m.r[slots[0].reg];
        Memory.Write32ThenRead32(m.mem, address, v);
        var e := Store32(m, address, v);
        assert Wrap(address as int + 4) == address + 4;
        StoreRegistersWrites(e.state, slots[1..], address + 4, j - 1, before - 1);
      }
    }
  }

  /** The first selected slot of a run inside the code array is stored at
      the starting address, and no later store overwrites it. */
  lemma {:induction false} StoreRegistersWritesFirst(m: Machine, slots: seq<Slot>, address: Word)
    requires slots != [] && slots[0].selected && address + 4 * Selected(slots) <= REGION_SIZE
    ensures var t := StoreRegisters(m, slots, address);
      t.exec.outcome.Completed? && WordAt(t.exec.state.mem, address, m.r[slots[0].reg])
  {
    var v := m.r[slots[0].reg];
    Memory.Write32ThenRead32(m.mem, address, v);
    var e := Store32(m, address, v);
    assert Wrap(address as int + 4) == address + 4;
    StoreRegistersKeepsBelow(e.state, slots[1..], address + 4);
    var t := StoreRegisters(e.state, slots[1..], address + 4);
    Memory.Read32FromSameBytes(e.state.mem, t.exec.state.mem, address);
  }

  /** A run of loads whose frame lies inside the code array completes. */
  lemma {:induction false} LoadRegistersCompletes(m: Machine, slots: seq<Slot>, address: Word)
    requires address + 4 * Selected(slots) <= REGION_SIZE
    ensures LoadRegisters(m, slots, address).exec.outcome.Completed?
    decreases |slots|
  {
    if slots != [] {
      if !slots[0].selected {
        LoadRegistersCompletes(m, slots[1..], address);
      } else {
        var e := Load32(m, slots[0].reg, address);
        assert Wrap(address as int + 4) == address + 4;
        LoadRegistersCompletes(e.state, slots[1..], address + 4);
      }
    }
  }

  /** Loading a frame of the code array back into the registers it was
      stored from: from any state whose memory is what the stores left,
      every listed register gets back the value that was stored, and
      nothing else changes. Both runs complete. */
  lemma {:induction false} StoreThenLoadRestores(m: Machine, slots: seq<Slot>, address: Word, s: Machine)
    requires address + 4 * Selected(slots) <= REGION_SIZE && DistinctRegisters(slots)
    requires s.mem == StoreRegisters(m, slots, address).exec.state.mem
    ensures StoreRegisters(m, slots, address).exec.outcome.Completed?
    ensures var u := LoadRegisters(s, slots, address);
      && u.exec.outcome.Completed? && u.exec.state == s.(r := u.exec.state.r)
      && forall k: RegIndex :: u.exec.state.r[k] == if Lists(slots, k) then m.r[k] else s.r[k]
  {
    StoreRegistersKeepsBelow(m, slots, address);
    LoadRegistersCompletes(s, slots, address);
    LoadRegistersFrame(s, slots, address);
    var u := LoadRegisters(s, slots, address);
    forall k: RegIndex | Lists(slots, k) ensures u.exec.state.r[k] == m.r[k] {
      ListsMeansSelectedSlot(slots, k);
      var j :| 0 <= j < |slots| && slots[j].reg == k && slots[j].selected;
      StoreRegistersWrites(m, slots, address, j, Selected(slots[..j]));
      LoadRegistersReads(s, slots, address, j, k, Selected(slots[..j]));
    }
  }

  /** Loading changes registers only, and only listed ones. */
  lemma {:induction false} LoadRegistersFrame(m: Machine, slots: seq<Slot>, address: Word)
    ensures var t := LoadRegisters(m, slots, address);
      && t.exec.state == m.(r := t.exec.state.r)
      && forall k: RegIndex :: !Lists(slots, k) ==> t.exec.state.r[k] == m.r[k]
    decreases |slots|
  {
    if slots != [] {
      if !slots[0].selected {
        LoadRegistersFrame(m, slots[1..], address);
      } else {
        var e := Load32(m, slots[0].reg, address);
        Load32Frame(m, slots[0].reg, address);
        if e.outcome.Completed? {
          LoadRegistersFrame(e.state, slots[1..], Wrap(address as int + 4));
        }
      }
    }
  }

  /** A run of loads that completes has advanced the address by four for
      each selected slot. */
  lemma {:induction false} LoadRegistersAdvance(m: Machine, slots: seq<Slot>, address: Word)
    ensures var t := LoadRegisters(m, slots, address);
      t.exec.outcome.Completed? ==> t.address == Wrap(address as int + 4 * Selected(slots))
    decreases |slots|
  {
    if slots != [] {
      if !slots[0].selected {
        LoadRegistersAdvance(m, slots[1..], address);
      } else {
        var e := Load32(m, slots[0].reg, address);
        if e.outcome.Completed? {
          LoadRegistersAdvance(e.state, slots[1..], Wrap(address as int + 4));
          WrapOfWrappedSum(address as int + 4, 4 * Selected(slots[1..]));
        }
      }
    }
  }

  /** The first `n` low slots are selected by the bits `1 << j`, `j < n`, of
      the low byte of `i`. */
  lemma {:induction false} LowSlotsPrefixCount(i: bv16, n: nat)
    requires n <= 8
    ensures Selected(LowSlots(i)[..n]) == BitCount(i & 0xFF, n)
  {
    if n > 0 {
      LowSlotsPrefixCount(i, n - 1);
      LowSlotsPrefixStep(i, n);
      LowSlot(i, n - 1);
    }
  }

  /** Extending the prefix by slot `n - 1` adds one exactly when bit
      `1 << (n - 1)` of `i` is set. */
  lemma {:induction false} LowSlotsPrefixStep(i: bv16, n: nat)
    requires 0 < n <= 8
    ensures Selected(LowSlots(i)[..n]) ==
      Selected(LowSlots(i)[..n - 1]) + if HasBit(i, n - 1) then 1 else 0
  {
    LowSlotsPrefixSplit(i, n);
    SelectedSingleton(LowSlots(i)[n - 1]);
    LowSlot(i, n - 1);
  }

  lemma {:induction false} LowSlotsPrefixSplit(i: bv16, n: nat)
    requires 0 < n <= 8
    ensures Selected(LowSlots(i)[..n]) == Selected(LowSlots(i)[..n - 1]) + Selected([LowSlots(i)[n - 1]])
  {
    assert LowSlots(i)[..n] == LowSlots(i)[..n - 1] + [LowSlots(i)[n - 1]];
    SelectedAppend(LowSlots(i)[..n - 1], [LowSlots(i)[n - 1]]);
  }

  lemma {:induction false} SelectedSingleton(s: Slot)
    ensures Selected([s]) == if s.selected then 1 else 0
  {
  }

  /** Low slot `j` transfers R`j` and is selected by bit `1 << j`, which the
      low byte of `i` keeps. */
  lemma {:induction false} LowSlot(i: bv16, j: nat)
    requires j < 8
    ensures LowSlots(i)[j] == Slot(HasBit(i, j), j)
    ensures HasBit(i & 0xFF, j) == HasBit(i, j)
  {
  }

  /** The table entry `cpuBitsSet[i & 0xFF]` is the number of registers of
      the low list that the transfers visit. */
  lemma {:induction false} LowSlotsCount(i: bv16)
    ensures Selected(LowSlots(i)) == ListCount(i)
  {
    LowSlotsPrefixCount(i, 8);
    assert LowSlots(i)[..8] == LowSlots(i);
  }

  /** A run lists `k` exactly when some selected slot carries `k`. */
  lemma {:induction false} ListsMeansSelectedSlot(slots: seq<Slot>, k: RegIndex)
    ensures Lists(slots, k) <==> exists j :: 0 <= j < |slots| && slots[j].reg == k && slots[j].selected
    decreases |slots|
  {
    if slots != [] {
      ListsMeansSelectedSlot(slots[1..], k);
      if Lists(slots[1..], k) {
        var j :| 0 <= j < |slots[1..]| && slots[1..][j].reg == k && slots[1..][j].selected;
        assert slots[j + 1] == slots[1..][j];
      }
      if j :| 0 < j < |slots| && slots[j].reg == k && slots[j].selected {
        assert slots[1..][j - 1] == slots[j];
      }
    }
  }

  /** The low list names R`k` exactly when bit `k` of the instruction is set. */
  lemma {:induction false} LowSlotsList(i: bv16, k: RegIndex)
    ensures Lists(LowSlots(i), k) <==> InLowList(i, k)
  {
    ListsMeansSelectedSlot(LowSlots(i), k);
    if Lists(LowSlots(i), k) {
      var j :| 0 <= j < 8 && LowSlots(i)[j].reg == k && LowSlots(i)[j].selected;
      LowSlot(i, j);
    }
    if InLowList(i, k) {
      LowSlot(i, k);
    }
  }

  /** A run over slots with distinct registers leaves in register `k`,
      carried by selected slot `j`, the word at the address advanced past
      the `before` selected slots ahead of `j`: the registers are read in
      list order from ascending addresses. */
  lemma {:induction false} LoadRegistersReads(m: Machine, slots: seq<Slot>, address: Word, j: nat, k: RegIndex, before: nat)
    requires j < |slots| && slots[j].selected && slots[j].reg == k
    requires DistinctRegisters(slots) && Selected(slots[..j]) == before
    ensures var t := LoadRegisters(m, slots, address);
      t.exec.outcome.Completed? ==> WordAt(m.mem, Wrap(address as int + 4 * before), t.exec.state.r[k])
    decreases |slots|, 1
  {
    if j == 0 {
      assert slots[..0] == [];
      LoadRegistersReadsFirst(m, slots, address);
    } else if !slots[0].selected {
      ReadsPastUnselected(m, slots, address, j, k, before);
    } else {
      ReadsPastSelected(m, slots, address, j, k, before);
    }
  }

  /** The step of LoadRegistersReads past a slot that is not selected. */
  lemma {:induction false} ReadsPastUnselected(m: Machine, slots: seq<Slot>, address: Word, j: nat, k: RegIndex, before: nat)
    requires 0 < j < |slots| && !slots[0].selected && slots[j].selected && slots[j].reg == k
    requires DistinctRegisters(slots) && Selected(slots[..j]) == before
    ensures var t := LoadRegisters(m, slots, address);
      t.exec.outcome.Completed? ==> WordAt(m.mem, Wrap(address as int + 4 * before), t.exec.state.r[k])
    decreases |slots|, 0
  {
    assert slots[1..][j - 1] == slots[j];
    DistinctRegistersTail(slots);
    SelectedPrefixStep(slots, j);
    LoadRegistersReads(m, slots[1..], address, j - 1, k, before);
  }

  /** The step of LoadRegistersReads past a selected slot: the rest of the
      run starts four bytes higher, from the state after the first load. */
  lemma {:induction false} ReadsPastSelected(m: Machine, slots: seq<Slot>, address: Word, j: nat, k: RegIndex, before: nat)
    requires 0 < j < |slots| && slots[0].selected && slots[j].selected && slots[j].reg == k
    requires DistinctRegisters(slots) && Selected(slots[..j]) == before
    ensures var t := LoadRegisters(m, slots, address);
      t.exec.outcome.Completed? ==> WordAt(m.mem, Wrap(address as int + 4 * before), t.exec.state.r[k])
    decreases |slots|, 0
  {
    var e := Load32(m, slots[0].reg, address);
    if e.outcome.Completed? {
      Load32Frame(m, slots[0].reg, address);
      LoadRegistersStep(m, slots, address);
      assert slots[1..][j - 1] == slots[j];
      DistinctRegistersTail(slots);
      SelectedPrefixStep(slots, j);
      ReadsAfterFirst(e.state, m.mem, slots[1..], address, j - 1, k, before - 1);
    }
  }

  /** The rest of a run, started four bytes above `address` from a state
      whose memory is `mem`, reads register `k` from the address one word
      further than its own count says. */
  lemma {:induction false} ReadsAfterFirst(s: Machine, mem: Memory.Mem, rest: seq<Slot>, address: Word, j: nat, k: RegIndex, before: nat)
    requires s.mem == mem
    requires j < |rest| && rest[j].selected && rest[j].reg == k
    requires DistinctRegisters(rest) && Selected(rest[..j]) == before
    ensures var t := LoadRegisters(s, rest, Wrap(address as int + 4));
      t.exec.outcome.Completed? ==> WordAt(mem, Wrap(address as int + 4 * (before + 1)), t.exec.state.r[k])
    decreases |rest|, 2
  {
    var next := Wrap(address as int + 4);
    LoadRegistersReads(s, rest, next, j, k, before);
    WrapOfWrappedSum(address as int + 4, 4 * before);
  }

  /** A run whose first slot is selected and loads completes continues
      from the state after that load, four bytes higher. */
  lemma {:induction false} LoadRegistersStep(m: Machine, slots: seq<Slot>, address: Word)
    requires slots != [] && slots[0].selected
    ensures var e := Load32(m, slots[0].reg, address);
      e.outcome.Completed? ==>
        LoadRegisters(m, slots, address) == LoadRegisters(e.state, slots[1..], Wrap(address as int + 4))
  {
  }

  lemma {:induction false} WordAtSame(mem: Memory.Mem, mem': Memory.Mem, a: Word, a': Word, v: Word, v': Word)
    requires WordAt(mem, a, v) && mem == mem' && a == a' && v == v'
    ensures WordAt(mem', a', v')
  {
  }

  lemma {:induction false} ReadSame(mem: Memory.Mem, mem': Memory.Mem, a: Word, a': Word)
    requires mem == mem' && a == a'
    ensures Memory.Read32(mem, a) == Memory.Read32(mem', a')
  {
  }

  /** The prefix of `j` slots counts slot 0 and the first `j - 1` of the rest. */
  lemma {:induction false} SelectedPrefixStep(slots: seq<Slot>, j: nat)
    requires 0 < j <= |slots|
    ensures Selected(slots[..j]) == (if slots[0].selected then 1 else 0) + Selected(slots[1..][..j - 1])
  {
    assert slots[..j][0] == slots[0] && slots[..j][1..] == slots[1..][..j - 1];
  }

  /** No register appears in two slots. */
  predicate DistinctRegisters(slots: seq<Slot>) {
    forall a, b :: 0 <= a < b < |slots| ==> slots[a].reg != slots[b].reg
  }

  lemma {:induction false} DistinctRegistersTail(slots: seq<Slot>)
    requires slots != [] && DistinctRegisters(slots)
    ensures DistinctRegisters(slots[1..])
    ensures forall b :: 0 <= b < |slots| - 1 ==> slots[1..][b].reg != slots[0].reg
  {
  }

  /** The first selected slot of a run is loaded from the starting address,
      and no later slot overwrites it. */
  lemma {:induction false} LoadRegistersReadsFirst(m: Machine, slots: seq<Slot>, address: Word)
    requires slots != [] && slots[0].selected
    requires DistinctRegisters(slots)
    ensures var t := LoadRegisters(m, slots, address);
      t.exec.outcome.Completed? ==> WordAt(m.mem, address, t.exec.state.r[slots[0].reg])
  {
    var rest := slots[1..];
    var k := slots[0].reg;
    var e := Load32(m, k, address);
    if e.outcome.Completed? {
      Load32Reads(m, k, address);
      LoadRegistersFrame(e.state, rest, Wrap(address as int + 4));
      ListsMeansSelectedSlot(rest, k);
      DistinctRegistersTail(slots);
    }
  }

  /** The registers of the low list are distinct. */
  lemma {:induction false} LowSlotsDistinct(i: bv16)
    ensures DistinctRegisters(LowSlots(i))
  {
    forall a, b | 0 <= a < b < |LowSlots(i)| ensures LowSlots(i)[a].reg != LowSlots(i)[b].reg {
      LowSlot(i, a);
      LowSlot(i, b);
    }
  }

  /** A listed low register R`k` is carried by selected low slot `k`, after
      the `BitCount(i & 0xFF, k)` listed registers below it, in a list of
      distinct registers. */
  lemma {:induction false} ListedLowSlot(i: bv16, k: RegIndex)
    requires InLowList(i, k)
    ensures k < |LowSlots(i)| && LowSlots(i)[k].selected && LowSlots(i)[k].reg == k
    ensures DistinctRegisters(LowSlots(i)) && Selected(LowSlots(i)[..k]) == BitCount(i & 0xFF, k)
  {
    LowSlotsDistinct(i);
    LowSlot(i, k);
    LowSlotsPrefixCount(i, k);
  }

  /** The low list names R`k` exactly when bit `k` of the instruction is
      set, for every `k`. */
  lemma {:induction false} LowSlotsLists(i: bv16)
    ensures forall k: RegIndex :: Lists(LowSlots(i), k) <==> InLowList(i, k)
  {
    forall k: RegIndex ensures Lists(LowSlots(i), k) <==> InLowList(i, k) {
      LowSlotsList(i, k);
    }
  }

  /** The push/pop mode bit is the list bit of R2: every POP loads R2 and no
      PUSH stores it. */
  lemma {:induction false} ModeBitIsR2(i: bv16)
    ensures Lists(LowSlots(i), 2) <==> Flag(i, 0x4)
  {
    LowSlotsList(i, 2);
  }

  // ---------------------------------------------------------------------
  // PUSH

  /** A push changes memory and R13 only, and R13 only when every store
      completes. */
  lemma {:induction false} PushSlotsEffect(m: Machine, slots: seq<Slot>, sp: Word)
    ensures var e := PushSlots(m, slots, sp);
      && e.state == m.(mem := e.state.mem, r := e.state.r)
      && e.state.r == if e.outcome.Completed? then m.r[SP_INDEX := sp] else m.r
  {
    StoreRegistersEffect(m, slots, AlignDown4(sp));
  }

  /** PUSH {list} changes memory and R13 only; R13 moves down by four per
      listed register, and only when every store completes. */
  lemma {:induction false} PushListEffect(m: Machine, i: bv16)
    ensures var e := PushSlots(m, LowSlots(i), Wrap(m.r[SP_INDEX] as int - 4 * ListCount(i)));
      && e.state == m.(mem := e.state.mem, r := e.state.r)
      && e.state.r == if e.outcome.Completed? then m.r[SP_INDEX := Wrap(m.r[SP_INDEX] as int - 4 * ListCount(i))] else m.r
  {
    var sp := Wrap(m.r[SP_INDEX] as int - 4 * ListCount(i));
    PushSlotsEffect(m, LowSlots(i), sp);
  }

  /** PUSH {list, LR} changes memory and R13 only; R13 moves down by four
      per register, LR included, and only when every store completes. */
  lemma {:induction false} PushListLrEffect(m: Machine, i: bv16)
    ensures var e := PushSlots(m, LowSlots(i) + [LrSlot(i)], Wrap(m.r[SP_INDEX] as int - 4 - 4 * ListCount(i)));
      && e.state == m.(mem := e.state.mem, r := e.state.r)
      && e.state.r == if e.outcome.Completed? then m.r[SP_INDEX := Wrap(m.r[SP_INDEX] as int - 4 * (ListCount(i) + 1))] else m.r
  {
    var sp := Wrap(m.r[SP_INDEX] as int - 4 - 4 * ListCount(i));
    assert sp == Wrap(m.r[SP_INDEX] as int - 4 * (ListCount(i) + 1));
    PushSlotsEffect(m, LowSlots(i) + [LrSlot(i)], sp);
  }

  /** On an aligned stack with room below it, the stores of a push run from
      the new R13 up to the old one: they fill exactly the frame the push
      allocates. */
  lemma {:induction false} PushFillsFrame(m: Machine, i: bv16, withLr: bool)
    requires withLr ==> Flag(i, 0x100)
    requires var extra := if withLr then 1 else 0;
      m.r[SP_INDEX] % 4 == 0 && 4 * (ListCount(i) + extra) <= m.r[SP_INDEX]
    ensures var extra := if withLr then 1 else 0;
      var slots := if withLr then LowSlots(i) + [LrSlot(i)] else LowSlots(i);
      var bottom := m.r[SP_INDEX] - 4 * (ListCount(i) + extra);
      var t := StoreRegisters(m, slots, bottom);
      t.exec.outcome.Completed? ==> t.address == m.r[SP_INDEX]
  {
    var extra := if withLr then 1 else 0;
    var slots := if withLr then LowSlots(i) + [LrSlot(i)] else LowSlots(i);
    var bottom := m.r[SP_INDEX] - 4 * (ListCount(i) + extra);
    LowSlotsCount(i);
    if withLr {
      SelectedAppend(LowSlots(i), [LrSlot(i)]);
      SelectedSingleton(LrSlot(i));
    }
    StoreRegistersEffect(m, slots, bottom);
  }

  /** On an aligned frame inside the code array, a push completes and
      leaves selected slot `j` at the new stack pointer plus four for every
      selected slot ahead of it. */
  lemma {:induction false} PushSlotsWrites(m: Machine, slots: seq<Slot>, sp: Word, j: nat)
    requires sp % 4 == 0 && sp + 4 * Selected(slots) <= REGION_SIZE
    requires j < |slots| && slots[j].selected
    ensures var e := PushSlots(m, slots, sp);
      e.outcome.Completed? && WordAt(e.state.mem, Wrap(sp as int + 4 * Selected(slots[..j])), m.r[slots[j].reg])
  {
    assert AlignDown4(sp) == sp;
    StoreRegistersWrites(m, slots, sp, j, Selected(slots[..j]));
  }

  /** PUSH {list} on an aligned stack with room below it inside the code
      array completes, and stores listed R`k` at the new R13 plus four for
      every listed register below `k`: the registers go up the frame in
      ascending order. */
  lemma {:induction false} PushListWrites(m: Machine, i: bv16, k: RegIndex)
    requires InLowList(i, k)
    requires m.r[SP_INDEX] % 4 == 0 && 4 * ListCount(i) <= m.r[SP_INDEX] <= REGION_SIZE
    ensures var bottom := m.r[SP_INDEX] - 4 * ListCount(i);
      var e := PushSlots(m, LowSlots(i), bottom);
      e.outcome.Completed? && WordAt(e.state.mem, Wrap(bottom as int + 4 * BitCount(i & 0xFF, k)), m.r[k])
  {
    var bottom := m.r[SP_INDEX] - 4 * ListCount(i);
    ListedLowSlot(i, k);
    LowSlotsCount(i);
    PushSlotsWrites(m, LowSlots(i), bottom, k);
  }

  /** PUSH {list, LR} on an aligned stack with room below it inside the
      code array completes, stores LR in the top word of the frame, just
      below the old R13, and stores listed R`k` as PUSH {list} does from the
      new R13. */
  lemma {:induction false} PushListLrWrites(m: Machine, i: bv16, k: RegIndex)
    requires Flag(i, 0x100)
    requires m.r[SP_INDEX] % 4 == 0 && 4 * (ListCount(i) + 1) <= m.r[SP_INDEX] <= REGION_SIZE
    ensures var bottom := m.r[SP_INDEX] - 4 * (ListCount(i) + 1);
      var e := PushSlots(m, LowSlots(i) + [LrSlot(i)], bottom);
      && e.outcome.Completed?
      && WordAt(e.state.mem, m.r[SP_INDEX] - 4, m.r[LR_INDEX])
      && (InLowList(i, k) ==> WordAt(e.state.mem, Wrap(bottom as int + 4 * BitCount(i & 0xFF, k)), m.r[k]))
  {
    var bottom := m.r[SP_INDEX] - 4 * (ListCount(i) + 1);
    var slots := LowSlots(i) + [LrSlot(i)];
    LowSlotsCount(i);
    SelectedAppend(LowSlots(i), [LrSlot(i)]);
    SelectedSingleton(LrSlot(i));
    assert slots[..8] == LowSlots(i) && slots[8] == LrSlot(i);
    PushSlotsWrites(m, slots, bottom, 8);
    if InLowList(i, k) {
      ListedLowSlot(i, k);
      assert slots[..k] == LowSlots(i)[..k] && slots[k] == LowSlots(i)[k];
      PushSlotsWrites(m, slots, bottom, k);
    }
  }

  // ---------------------------------------------------------------------
  // POP

  /** A pop changes registers only: R13, which it sets to `sp` only when
      every load completes, and the listed ones. */
  lemma {:induction false} PopSlotsFrame(m: Machine, slots: seq<Slot>, sp: Word)
    requires !Lists(slots, SP_INDEX)
    ensures var e := PopSlots(m, slots, sp);
      && e.state == m.(r := e.state.r)
      && (forall k: RegIndex :: k != SP_INDEX && !Lists(slots, k) ==> e.state.r[k] == m.r[k])
      && e.state.r[SP_INDEX] == if e.outcome.Completed? then sp else m.r[SP_INDEX]
  {
    LoadRegistersFrame(m, slots, AlignDown4(m.r[SP_INDEX]));
  }

  /** A completed pop leaves in register `k`, carried by selected slot
      `j`, the word at R13, rounded down to a word, advanced past the
      `before` selected slots ahead of `j`. */
  lemma {:induction false} PopSlotsReads(m: Machine, slots: seq<Slot>, sp: Word, j: nat, k: RegIndex, before: nat)
    requires j < |slots| && slots[j].selected && slots[j].reg == k && k != SP_INDEX
    requires DistinctRegisters(slots) && Selected(slots[..j]) == before
    ensures var e := PopSlots(m, slots, sp);
      e.outcome.Completed? ==> WordAt(m.mem, Wrap(AlignDown4(m.r[SP_INDEX]) as int + 4 * before), e.state.r[k])
  {
    var base := AlignDown4(m.r[SP_INDEX]);
    LoadRegistersReads(m, slots, base, j, k, before);
  }

  /** With bit 2 clear, PUSH/POP pushes: PUSH {list, LR} when bit 8 is set,
      PUSH {list} otherwise. */
  lemma {:induction false} PushDecoding(m: Machine, i: bv16)
    requires !Flag(i, 0x4)
    ensures var sp := m.r[SP_INDEX] as int;
      PushPopRegisters(m, i) ==
        if Flag(i, 0x100) then PushSlots(m, LowSlots(i) + [LrSlot(i)], Wrap(sp - 4 - 4 * ListCount(i)))
        else PushSlots(m, LowSlots(i), Wrap(sp - 4 * ListCount(i)))
  {
  }

  /** With bit 2 set, PUSH/POP pops: POP {list, PC} when bit 8 is set too,
      POP {list} otherwise. */
  lemma {:induction false} PopDecoding(m: Machine, i: bv16)
    requires Flag(i, 0x4)
    ensures var sp := m.r[SP_INDEX] as int;
      PushPopRegisters(m, i) ==
        if Flag(i, 0x100) then PopSlotsPc(m, LowSlots(i), Wrap(sp + 4 + 4 * ListCount(i)))
        else PopSlots(m, LowSlots(i), Wrap(sp + 4 * ListCount(i)))
  {
  }

  /** POP {list} changes registers only, and of them only R13 and the
      listed low registers; R13 moves up by four per listed register, and
      only when every load completes. */
  lemma {:induction false} PopListFrame(m: Machine, i: bv16)
    ensures var e := PopSlots(m, LowSlots(i), Wrap(m.r[SP_INDEX] as int + 4 * ListCount(i)));
      && e.state == m.(r := e.state.r)
      && (forall k: RegIndex :: k != SP_INDEX && !InLowList(i, k) ==> e.state.r[k] == m.r[k])
      && e.state.r[SP_INDEX] == if e.outcome.Completed? then Wrap(m.r[SP_INDEX] as int + 4 * ListCount(i)) else m.r[SP_INDEX]
  {
    var sp := Wrap(m.r[SP_INDEX] as int + 4 * ListCount(i));
    LowSlotsLists(i);
    PopSlotsFrame(m, LowSlots(i), sp);
  }

  /** POP {list} reads each listed low register in ascending order from
      R13 rounded down to a word: R`k` from the word after the listed
      registers below it. */
  lemma {:induction false} PopListReads(m: Machine, i: bv16, k: RegIndex)
    requires InLowList(i, k)
    ensures var e := PopSlots(m, LowSlots(i), Wrap(m.r[SP_INDEX] as int + 4 * ListCount(i)));
      var base := AlignDown4(m.r[SP_INDEX]);
      e.outcome.Completed? ==>
        WordAt(m.mem, Wrap(base as int + 4 * BitCount(i & 0xFF, k)), e.state.r[k])
  {
    ListedLowSlot(i, k);
    PopSlotsReads(m, LowSlots(i), Wrap(m.r[SP_INDEX] as int + 4 * ListCount(i)), k, k, BitCount(i & 0xFF, k));
  }

  /** The PC part of a POP changes registers, PC and the queue only, and
      of the registers only R13 and R15; a failed read changes nothing. */
  lemma {:induction false} PopPcFrame(m: Machine, address: Word, sp: Word)
    ensures var e := PopPc(m, address, sp);
      && e.state == m.(r := e.state.r, pc := e.state.pc, prefetch := e.state.prefetch)
      && (forall k: RegIndex :: k != SP_INDEX && k != PC_INDEX ==> e.state.r[k] == m.r[k])
      && (Memory.Read32(m.mem, address).Err? ==> e == Fail(m, Memory.Read32(m.mem, address).fault))
  {
    if Memory.Read32(m.mem, address).Ok? {
      var w := Memory.Read32(m.mem, address).value;
      var m2 := SetReg(m, PC_INDEX, ClearBit0(w));
      var m3 := m2.(pc := m2.r[PC_INDEX]);
      var m4 := SetReg(m3, PC_INDEX, Wrap(m3.r[PC_INDEX] as int + 2));
      var s := SetReg(m4, SP_INDEX, sp);
      assert PopPc(m, address, sp) == Prefetch(s);
      PrefetchOnlyFillsQueue(s);
    }
  }

  /** The PC part of a POP: once the word is read, PC is that word with
      bit 0 cleared, R15 is PC + 2 and R13 is `sp`; on completion the queue
      holds the halfwords at PC. */
  lemma {:induction false} PopPcEffect(m: Machine, address: Word, sp: Word)
    ensures var e := PopPc(m, address, sp);
      && (Memory.Read32(m.mem, address).Ok? ==>
            && e.state.pc == ClearBit0(Memory.Read32(m.mem, address).value)
            && e.state.r[SP_INDEX] == sp && e.state.r[PC_INDEX] == Wrap(e.state.pc as int + 2))
      && (e.outcome.Completed? ==> Memory.Read32(m.mem, address).Ok? && QueueHolds(e.state, e.state.pc))
  {
    if Memory.Read32(m.mem, address).Ok? {
      var w := Memory.Read32(m.mem, address).value;
      var m2 := SetReg(m, PC_INDEX, ClearBit0(w));
      var m3 := m2.(pc := m2.r[PC_INDEX]);
      var m4 := SetReg(m3, PC_INDEX, Wrap(m3.r[PC_INDEX] as int + 2));
      var s := SetReg(m4, SP_INDEX, sp);
      var target := ClearBit0(w);
      assert s.pc == target && s.r[SP_INDEX] == sp && s.r[PC_INDEX] == Wrap(target as int + 2);
      assert PopPc(m, address, sp) == Prefetch(s);
      PrefetchOnlyFillsQueue(s);
      PrefetchFillsQueue(s);
    }
  }

  /** A pop with PC changes registers, PC and the queue only; the
      registers other than R13, R15 and the listed ones keep their
      values. */
  lemma {:induction false} PopSlotsPcFrame(m: Machine, slots: seq<Slot>, sp: Word)
    ensures var e := PopSlotsPc(m, slots, sp);
      && e.state == m.(r := e.state.r, pc := e.state.pc, prefetch := e.state.prefetch)
      && (forall k: RegIndex :: k != SP_INDEX && k != PC_INDEX && !Lists(slots, k) ==> e.state.r[k] == m.r[k])
  {
    var t := LoadRegisters(m, slots, AlignDown4(m.r[SP_INDEX]));
    LoadRegistersFrame(m, slots, AlignDown4(m.r[SP_INDEX]));
    if t.exec.outcome.Completed? {
      assert PopSlotsPc(m, slots, sp) == PopPc(t.exec.state, t.address, sp);
      PopPcFrame(t.exec.state, t.address, sp);
    }
  }

  /** A completed pop with PC over `count` selected slots takes PC from
      the word after them, with bit 0 cleared. */
  lemma {:induction false} PopSlotsPcTarget(m: Machine, slots: seq<Slot>, sp: Word, count: nat)
    requires Selected(slots) == count
    ensures var e := PopSlotsPc(m, slots, sp);
      var top := Wrap(AlignDown4(m.r[SP_INDEX]) as int + 4 * count);
      e.outcome.Completed? ==>
        Memory.Read32(m.mem, top).Ok? && e.state.pc == ClearBit0(Memory.Read32(m.mem, top).value)
  {
    var base := AlignDown4(m.r[SP_INDEX]);
    var t := LoadRegisters(m, slots, base);
    LoadRegistersAdvance(m, slots, base);
    if t.exec.outcome.Completed? {
      var top := Wrap(base as int + 4 * count);
      assert t.address == top;
      LoadRegistersKeepMemory(m, slots, base);
      assert PopSlotsPc(m, slots, sp) == PopPc(t.exec.state, top, sp);
      PopPcEffect(t.exec.state, top, sp);
      ReadSame(t.exec.state.mem, m.mem, top, top);
    }
  }

  /** Loading registers leaves memory as it was. */
  lemma {:induction false} LoadRegistersKeepMemory(m: Machine, slots: seq<Slot>, address: Word)
    ensures LoadRegisters(m, slots, address).exec.state.mem == m.mem
  {
    LoadRegistersFrame(m, slots, address);
  }

  /** A completed pop with PC leaves PC + 2 in R15 and `sp` in R13, and the
      queue holds the halfwords at the new PC. */
  lemma {:induction false} PopSlotsPcJumps(m: Machine, slots: seq<Slot>, sp: Word)
    ensures var e := PopSlotsPc(m, slots, sp);
      e.outcome.Completed? ==>
        && e.state.r[PC_INDEX] == Wrap(e.state.pc as int + 2)
        && e.state.r[SP_INDEX] == sp
        && QueueHolds(e.state, e.state.pc)
  {
    var t := LoadRegisters(m, slots, AlignDown4(m.r[SP_INDEX]));
    if t.exec.outcome.Completed? {
      assert PopSlotsPc(m, slots, sp) == PopPc(t.exec.state, t.address, sp);
      PopPcEffect(t.exec.state, t.address, sp);
    }
  }

  /** A completed pop with PC over `count` selected slots: the word
      after them, with bit 0 cleared, becomes PC and PC + 2 the new R15;
      R13 moves up by four per register, PC included; and the queue holds
      the halfwords at the new PC. */
  lemma {:induction false} PopSlotsPcEffect(m: Machine, slots: seq<Slot>, count: nat)
    requires Selected(slots) == count
    ensures var e := PopSlotsPc(m, slots, Wrap(m.r[SP_INDEX] as int + 4 + 4 * count));
      var top := Wrap(AlignDown4(m.r[SP_INDEX]) as int + 4 * count);
      e.outcome.Completed? ==>
        && Memory.Read32(m.mem, top).Ok?
        && e.state.pc == ClearBit0(Memory.Read32(m.mem, top).value)
        && e.state.r[PC_INDEX] == Wrap(e.state.pc as int + 2)
        && e.state.r[SP_INDEX] == Wrap(m.r[SP_INDEX] as int + 4 * (count + 1))
        && QueueHolds(e.state, e.state.pc)
  {
    var sp := Wrap(m.r[SP_INDEX] as int + 4 + 4 * count);
    assert sp == Wrap(m.r[SP_INDEX] as int + 4 * (count + 1));
    PopSlotsPcTarget(m, slots, sp, count);
    PopSlotsPcJumps(m, slots, sp);
  }

  /** In a completed pop with PC, register `k` of selected slot `j` holds
      the word read for it, as in PopSlotsReads. */
  lemma {:induction false} PopSlotsPcReads(m: Machine, slots: seq<Slot>, sp: Word, j: nat, k: RegIndex, before: nat)
    requires j < |slots| && slots[j].selected && slots[j].reg == k && k != SP_INDEX && k != PC_INDEX
    requires DistinctRegisters(slots) && Selected(slots[..j]) == before
    ensures var e := PopSlotsPc(m, slots, sp);
      e.outcome.Completed? ==> WordAt(m.mem, Wrap(AlignDown4(m.r[SP_INDEX]) as int + 4 * before), e.state.r[k])
  {
    var base := AlignDown4(m.r[SP_INDEX]);
    var t := LoadRegisters(m, slots, base);
    LoadRegistersReads(m, slots, base, j, k, before);
    if t.exec.outcome.Completed? {
      assert PopSlotsPc(m, slots, sp) == PopPc(t.exec.state, t.address, sp);
      PopPcFrame(t.exec.state, t.address, sp);
    }
  }

  /** POP {list, PC} changes registers, PC and the queue only; the
      registers other than R13, R15 and the listed low registers keep their
      values. */
  lemma {:induction false} PopListPcFrame(m: Machine, i: bv16)
    ensures var e := PopSlotsPc(m, LowSlots(i), Wrap(m.r[SP_INDEX] as int + 4 + 4 * ListCount(i)));
      && e.state == m.(r := e.state.r, pc := e.state.pc, prefetch := e.state.prefetch)
      && (forall k: RegIndex :: k != SP_INDEX && k != PC_INDEX && !InLowList(i, k) ==> e.state.r[k] == m.r[k])
  {
    var sp := Wrap(m.r[SP_INDEX] as int + 4 + 4 * ListCount(i));
    PopSlotsPcFrame(m, LowSlots(i), sp);
    LowSlotsLists(i);
  }

  /** A completed POP {list, PC}: the word after the low list, with bit 0
      cleared, becomes PC and PC + 2 the new R15; R13 moves up by four per
      register, PC included, and the queue holds the halfwords at the new
      PC. */
  lemma {:induction false} PopListPcEffect(m: Machine, i: bv16)
    ensures var e := PopSlotsPc(m, LowSlots(i), Wrap(m.r[SP_INDEX] as int + 4 + 4 * ListCount(i)));
      var top := Wrap(AlignDown4(m.r[SP_INDEX]) as int + 4 * ListCount(i));
      e.outcome.Completed? ==>
        && Memory.Read32(m.mem, top).Ok?
        && e.state.pc == ClearBit0(Memory.Read32(m.mem, top).value)
        && e.state.r[PC_INDEX] == Wrap(e.state.pc as int + 2)
        && e.state.r[SP_INDEX] == Wrap(m.r[SP_INDEX] as int + 4 * (ListCount(i) + 1))
        && QueueHolds(e.state, e.state.pc)
  {
    LowSlotsCount(i);
    PopSlotsPcEffect(m, LowSlots(i), ListCount(i));
  }

  /** POP {list, PC} reads each listed low register as POP {list} does. */
  lemma {:induction false} PopListPcReads(m: Machine, i: bv16, k: RegIndex)
    requires InLowList(i, k)
    ensures var e := PopSlotsPc(m, LowSlots(i), Wrap(m.r[SP_INDEX] as int + 4 + 4 * ListCount(i)));
      var base := AlignDown4(m.r[SP_INDEX]);
      e.outcome.Completed? ==>
        WordAt(m.mem, Wrap(base as int + 4 * BitCount(i & 0xFF, k)), e.state.r[k])
  {
    ListedLowSlot(i, k);
    PopSlotsPcReads(m, LowSlots(i), Wrap(m.r[SP_INDEX] as int + 4 + 4 * ListCount(i)), k, k, BitCount(i & 0xFF, k));
  }

  // ---------------------------------------------------------------------
  // STMIA and LDMIA

  /** A block store changes memory and Rb only, and Rb only when every
      store completes. */
  lemma {:induction false} StoreBlockEffect(m: Machine, slots: seq<Slot>, rb: RegIndex, wb: Word)
    ensures var e := StoreBlock(m, slots, rb, wb);
      && e.state == m.(mem := e.state.mem, r := e.state.r)
      && e.state.r == if e.outcome.Completed? then m.r[rb := wb] else m.r
  {
    StoreRegistersEffect(m, slots, AlignDown4(m.r[rb]));
  }

  /** STMIA changes memory and Rb only, and writes back `R[rb] + 4 *
      cpuBitsSet[i & 0xFF]` exactly when every store completes. */
  lemma {:induction false} StoreMultipleEffect(m: Machine, i: bv16)
    ensures var rb := Bits3(i, 8);
      var e := StoreBlock(m, LowSlots(i), rb, Wrap(m.r[rb] as int + 4 * ListCount(i)));
      && e.state == m.(mem := e.state.mem, r := e.state.r)
      && e.state.r == if e.outcome.Completed? then m.r[rb := Wrap(m.r[rb] as int + 4 * ListCount(i))] else m.r
  {
    var rb := Bits3(i, 8);
    StoreBlockEffect(m, LowSlots(i), rb, Wrap(m.r[rb] as int + 4 * ListCount(i)));
  }

  /** The stores of STMIA start at `R[rb]` rounded down to a word and end
      four bytes past the last register stored. */
  lemma {:induction false} StoreMultipleFootprint(m: Machine, i: bv16)
    ensures var base := AlignDown4(m.r[Bits3(i, 8)]);
      var t := StoreRegisters(m, LowSlots(i), base);
      t.exec.outcome.Completed? ==> t.address == Wrap(base as int + 4 * ListCount(i))
  {
    LowSlotsCount(i);
    StoreRegistersEffect(m, LowSlots(i), AlignDown4(m.r[Bits3(i, 8)]));
  }

  /** A block load changes registers only, Rb and the listed ones; with
      write-back, a completed load leaves in Rb the address four bytes past
      the last register loaded. */
  lemma {:induction false} LoadBlockFrame(m: Machine, slots: seq<Slot>, rb: RegIndex, writeBack: bool)
    ensures var e := LoadBlock(m, slots, rb, writeBack);
      && e.state == m.(r := e.state.r)
      && (forall k: RegIndex :: k != rb && !Lists(slots, k) ==> e.state.r[k] == m.r[k])
      && (e.outcome.Completed? && writeBack ==>
            e.state.r[rb] == Wrap(AlignDown4(m.r[rb]) as int + 4 * Selected(slots)))
  {
    LoadRegistersFrame(m, slots, AlignDown4(m.r[rb]));
    LoadRegistersAdvance(m, slots, AlignDown4(m.r[rb]));
  }

  /** A completed block load leaves in register `k`, carried by selected
      slot `j`, the word at R[rb], rounded down to a word, advanced past the
      `before` selected slots ahead of `j`, unless `k` is Rb and is written
      back. */
  lemma {:induction false} LoadBlockReads(m: Machine, slots: seq<Slot>, rb: RegIndex, writeBack: bool, j: nat, k: RegIndex, before: nat)
    requires j < |slots| && slots[j].selected && slots[j].reg == k && (writeBack ==> k != rb)
    requires DistinctRegisters(slots) && Selected(slots[..j]) == before
    ensures var e := LoadBlock(m, slots, rb, writeBack);
      e.outcome.Completed? ==> WordAt(m.mem, Wrap(AlignDown4(m.r[rb]) as int + 4 * before), e.state.r[k])
  {
    LoadRegistersReads(m, slots, AlignDown4(m.r[rb]), j, k, before);
  }

  /** LDMIA changes registers only, and of them only Rb and the listed low
      registers; Rb gets the final address only when it is not in the list
      and every load completes. */
  lemma {:induction false} LoadMultipleEffect(m: Machine, i: bv16)
    ensures var rb := Bits3(i, 8);
      var e := LoadBlock(m, LowSlots(i), rb, !HasBit(i, rb));
      var base := AlignDown4(m.r[rb]);
      && e.state == m.(r := e.state.r)
      && (forall k: RegIndex :: k != rb && !InLowList(i, k) ==> e.state.r[k] == m.r[k])
      && (e.outcome.Completed? && !HasBit(i, rb) ==>
            e.state.r[rb] == Wrap(base as int + 4 * ListCount(i)))
  {
    var rb := Bits3(i, 8);
    LowSlotsLists(i);
    LowSlotsCount(i);
    LoadBlockFrame(m, LowSlots(i), rb, !HasBit(i, rb));
  }

  /** LDMIA reads each listed low register in ascending order from `R[rb]`
      rounded down to a word; when Rb is in the list it keeps the word
      loaded into it. */
  lemma {:induction false} LoadMultipleReads(m: Machine, i: bv16, k: RegIndex)
    requires InLowList(i, k)
    ensures var e := LoadBlock(m, LowSlots(i), Bits3(i, 8), !HasBit(i, Bits3(i, 8)));
      var base := AlignDown4(m.r[Bits3(i, 8)]);
      e.outcome.Completed? ==>
        WordAt(m.mem, Wrap(base as int + 4 * BitCount(i & 0xFF, k)), e.state.r[k])
  {
    var rb := Bits3(i, 8);
    var slots := LowSlots(i);
    var writeBack := !HasBit(i, rb);
    var before := BitCount(i & 0xFF, k);
    ListedLowSlot(i, k);
    assert writeBack ==> k != rb;
    LoadBlockReads(m, slots, rb, writeBack, k, k, before);
    var e := LoadBlock(m, slots, rb, writeBack);
    assert e.outcome.Completed? ==> WordAt(m.mem, Wrap(AlignDown4(m.r[rb]) as int + 4 * before), e.state.r[k]);
  }

  /** STMIA with an aligned base and its block inside the code array
      completes, and stores listed R`k` at `R[rb]` plus four for every
      listed register below `k`; when Rb is listed, its value before the
      write-back is stored. */
  lemma {:induction false} StoreMultipleWrites(m: Machine, i: bv16, k: RegIndex)
    requires InLowList(i, k)
    requires m.r[Bits3(i, 8)] % 4 == 0 && m.r[Bits3(i, 8)] + 4 * ListCount(i) <= REGION_SIZE
    ensures var rb := Bits3(i, 8);
      var e := StoreBlock(m, LowSlots(i), rb, Wrap(m.r[rb] as int + 4 * ListCount(i)));
      e.outcome.Completed? && WordAt(e.state.mem, Wrap(m.r[rb] as int + 4 * BitCount(i & 0xFF, k)), m.r[k])
  {
    var rb := Bits3(i, 8);
    var base := m.r[rb];
    ListedLowSlot(i, k);
    LowSlotsCount(i);
    assert AlignDown4(base) == base;
    StoreRegistersWrites(m, LowSlots(i), base, k, BitCount(i & 0xFF, k));
  }

  // ---------------------------------------------------------------------
  // Round trips of the register lists

  /** Popping the slots a push has just stored, on an aligned frame inside
      the code array, gives back every register the push started from
      except R13, which the pop sets to `sp'`; the rest of the state is what
      the push left. */
  lemma {:induction false} PushThenPopRestores(m: Machine, slots: seq<Slot>, sp: Word, sp': Word)
    requires sp % 4 == 0 && sp + 4 * Selected(slots) <= REGION_SIZE && DistinctRegisters(slots)
    ensures PushSlots(m, slots, sp).outcome.Completed?
    ensures var p := PushSlots(m, slots, sp).state;
      PopSlots(p, slots, sp') == Done(p.(r := m.r[SP_INDEX := sp']))
  {
    assert AlignDown4(sp) == sp;
    StoreRegistersEffect(m, slots, sp);
    var t := StoreRegisters(m, slots, sp);
    var p := SetReg(t.exec.state, SP_INDEX, sp);
    StoreThenLoadRestores(m, slots, sp, p);
    var u := LoadRegisters(p, slots, sp);
    assert u.exec.state.r[SP_INDEX := sp'] == m.r[SP_INDEX := sp'];
  }

  /** Loading back the block STMIA has just stored, with Rb reset to its
      old aligned value and the block inside the code array: every register
      gets back its value from before the store, except that a write-back
      leaves in Rb the address past the block. */
  lemma {:induction false} StoreBlockThenLoadBlock(m: Machine, slots: seq<Slot>, rb: RegIndex, wb: Word, writeBack: bool)
    requires m.r[rb] % 4 == 0 && m.r[rb] + 4 * Selected(slots) <= REGION_SIZE && DistinctRegisters(slots)
    ensures StoreBlock(m, slots, rb, wb).outcome.Completed?
    ensures var p := SetReg(StoreBlock(m, slots, rb, wb).state, rb, m.r[rb]);
      LoadBlock(p, slots, rb, writeBack)
        == Done(p.(r := if writeBack then m.r[rb := m.r[rb] + 4 * Selected(slots)] else m.r))
  {
    var base := m.r[rb];
    assert AlignDown4(base) == base;
    StoreRegistersKeepsBelow(m, slots, base);
    StoreBlockReset(m, slots, rb, wb);
    LoadBlockOfStored(m, slots, rb, writeBack);
  }

  /** Resetting Rb after a completed block store leaves exactly the state
      the stores left. */
  lemma {:induction false} StoreBlockReset(m: Machine, slots: seq<Slot>, rb: RegIndex, wb: Word)
    requires StoreRegisters(m, slots, AlignDown4(m.r[rb])).exec.outcome.Completed?
    ensures SetReg(StoreBlock(m, slots, rb, wb).state, rb, m.r[rb])
      == StoreRegisters(m, slots, AlignDown4(m.r[rb])).exec.state
  {
    StoreRegistersEffect(m, slots, AlignDown4(m.r[rb]));
  }

  /** The loads of LDMIA over the block the stores of STMIA have just
      written, from the state they left. */
  lemma {:induction false} LoadBlockOfStored(m: Machine, slots: seq<Slot>, rb: RegIndex, writeBack: bool)
    requires m.r[rb] % 4 == 0 && m.r[rb] + 4 * Selected(slots) <= REGION_SIZE && DistinctRegisters(slots)
    ensures var p := StoreRegisters(m, slots, m.r[rb]).exec.state;
      LoadBlock(p, slots, rb, writeBack)
        == Done(p.(r := if writeBack then m.r[rb := m.r[rb] + 4 * Selected(slots)] else m.r))
  {
    var base := m.r[rb];
    assert AlignDown4(base) == base;
    StoreRegistersEffect(m, slots, base);
    var p := StoreRegisters(m, slots, base).exec.state;
    StoreThenLoadRestores(m, slots, base, p);
    LoadRegistersAdvance(p, slots, base);
    var u := LoadRegisters(p, slots, base);
    assert u.exec.state.r == m.r;
  }

  /** PUSH {R0-R2} (0xB407) carries bit 2 and so pops: it loads R0..R2
      from the stack, writes no memory, and moves R13 up by twelve. */
  lemma {:induction false} PushOfR2Pops(m: Machine)
    ensures var e := PushPopRegisters(m, 0xB407);
      && e == PopSlots(m, LowSlots(0xB407), Wrap(m.r[SP_INDEX] as int + 12))
      && e.state.mem == m.mem
  {
    ListCountOfR0ToR2();
    PopDecoding(m, 0xB407);
    LowSlotsList(0xB407, SP_INDEX);
    PopSlotsFrame(m, LowSlots(0xB407), Wrap(m.r[SP_INDEX] as int + 12));
  }

  /** POP {R0, R1} (0xBC03) lacks bit 2 and so pushes: it stores R0 and R1
      below the stack, leaves them as they were, and moves R13 down by
      eight. PUSH {R0-R2}; POP {R0-R2}, both carrying bit 2, are two pops,
      so the pair does not give R0..R2 back. */
  lemma {:induction false} PopWithoutR2Pushes(m: Machine)
    ensures var e := PushPopRegisters(m, 0xBC03);
      && e == PushSlots(m, LowSlots(0xBC03), Wrap(m.r[SP_INDEX] as int - 8))
      && e.state.r[0] == m.r[0] && e.state.r[1] == m.r[1]
  {
    ListCountOfR0R1();
    PushDecoding(m, 0xBC03);
    PushSlotsEffect(m, LowSlots(0xBC03), Wrap(m.r[SP_INDEX] as int - 8));
  }

  lemma {:induction false} ListCountOfR0ToR2()
    ensures ListCount(0xB407) == 3
  {
    assert 0xB407 & 0xFF == 0x07 as bv16;
    assert BitCount(0x07, 3) == 3;
    assert BitCount(0x07, 6) == 3;
  }

  lemma {:induction false} ListCountOfR0R1()
    ensures ListCount(0xBC03) == 2
  {
    assert 0xBC03 & 0xFF == 0x03 as bv16;
    assert BitCount(0x03, 3) == 2;
    assert BitCount(0x03, 6) == 2;
  }

  // ---------------------------------------------------------------------
  // Properties of the single-register transfers

  /** The PC-relative load reads from a word-aligned address: R15 rounded
      down to a word plus four times the immediate. It changes only Rd. */
  lemma {:induction false} PcRelativeLoadEffect(m: Machine, i: bv16)
    ensures var e := PcRelativeLoad(m, i);
      var rd := Bits3(i, 8);
      var address := Wrap(AlignDown4(m.r[PC_INDEX]) as int + 4 * Bits8(i));
      && address % 4 == 0
      && e.state == m.(r := m.r[rd := e.state.r[rd]])
      && (e.outcome.Completed? ==> WordAt(m.mem, address, e.state.r[rd]))
  {
    var base := AlignDown4(m.r[PC_INDEX]) as int + 4 * Bits8(i);
    WrapKeepsAlignment(base);
    var address := Wrap(base);
    assert PcRelativeLoad(m, i) == Load32(m, Bits3(i, 8), address);
    Load32Frame(m, Bits3(i, 8), address);
    Load32Reads(m, Bits3(i, 8), address);
  }

  /** The register-offset format: STR and STRB (bits 10..11 are 0 or 1)
      change memory only; LDR and LDRB change only Rd. */
  lemma {:induction false} RegisterOffsetFrame(m: Machine, i: bv16)
    ensures var e := LoadStoreWithRegisterOffset(m, i);
      Bits2(i, 10) < 2 ==> e.state == m.(mem := e.state.mem)
    ensures var e := LoadStoreWithRegisterOffset(m, i);
      var rd := Bits3(i, 0);
      Bits2(i, 10) >= 2 ==> e.state == m.(r := m.r[rd := e.state.r[rd]])
  {
    var rd := Bits3(i, 0);
    var address := RegisterOffsetAddress(m, i);
    match Bits2(i, 10)
    case 0 => Store32Frame(m, address, m.r[rd]);
    case 1 => Store8Frame(m, address, LowByte(m.r[rd]));
    case 2 => Load32Frame(m, rd, address);
    case 3 => Load8Frame(m, rd, address);
  }

  /** Storing register k at an address inside the code array and loading it
      back into k completes and leaves the register file as it was. */
  lemma {:induction false} Store32ThenLoad32(m: Machine, k: RegIndex, address: Word)
    requires address <= Memory.CODE_END && address + 4 <= |m.mem.code|
    ensures var e := Store32(m, address, m.r[k]);
      && e.outcome.Completed?
      && var e2 := Load32(e.state, k, address);
      && e2.outcome.Completed? && e2.state.r == m.r && e2.state.mem == e.state.mem
  {
    Memory.Write32ThenRead32(m.mem, address, m.r[k]);
    var e := Store32(m, address, m.r[k]);
    assert e.state.r[k := m.r[k]] == m.r;
  }

  /** STR Rd, [Rb, Ro] followed by LDR Rd, [Rb, Ro] (the same fields with
      bit 11 set) gives Rd back, when the word lies in the code array. */
  lemma {:induction false} RegisterOffsetStoreThenLoad(m: Machine, i: bv16)
    requires Bits2(i, 10) == 0
    requires RegisterOffsetAddress(m, i) <= Memory.CODE_END
    requires RegisterOffsetAddress(m, i) + 4 <= |m.mem.code|
    ensures var e := LoadStoreWithRegisterOffset(m, i);
      && e.outcome.Completed?
      && var e2 := LoadStoreWithRegisterOffset(e.state, i | 0x800);
      && e2.outcome.Completed?
      && e2.state.r == m.r
      && e2.state.mem == e.state.mem
  {
    var j := i | 0x800;
    var rd := Bits3(i, 0);
    LoadBitFields(i);
    var address := RegisterOffsetAddress(m, i);
    var e := Store32(m, address, m.r[rd]);
    assert LoadStoreWithRegisterOffset(m, i) == e;
    Store32Frame(m, address, m.r[rd]);
    Store32ThenLoad32(m, rd, address);
    assert RegisterOffsetAddress(e.state, j) == address;
    assert LoadStoreWithRegisterOffset(e.state, j) == Load32(e.state, rd, address);
  }

  /** Setting bit 11 of a register-offset STR keeps its register fields
      and makes it the LDR. */
  lemma {:induction false} LoadBitFields(i: bv16)
    requires Bits2(i, 10) == 0
    ensures var j := i | 0x800;
      Bits3(j, 0) == Bits3(i, 0) && Bits3(j, 3) == Bits3(i, 3) && Bits3(j, 6) == Bits3(i, 6) && Bits2(j, 10) == 2
  {
  }

  /** The sign-extended format: STRH changes memory only, the three loads
      only Rd; LDSB and LDSH leave a zero-extended value, LDSH exactly
      what LDRH (bits 10..11 = 1) loads. */
  lemma {:induction false} SignExtendedFormat(m: Machine, i: bv16)
    ensures var e := LoadStoreSignExtendedByteHalfword(m, i);
      Bits2(i, 10) == 0 ==> e.state == m.(mem := e.state.mem)
    ensures var e := LoadStoreSignExtendedByteHalfword(m, i);
      var rd := Bits3(i, 0);
      Bits2(i, 10) != 0 ==> e.state == m.(r := m.r[rd := e.state.r[rd]])
    ensures var e := LoadStoreSignExtendedByteHalfword(m, i);
      Bits2(i, 10) == 2 && e.outcome.Completed? ==> e.state.r[Bits3(i, 0)] < 0x100
    ensures var e := LoadStoreSignExtendedByteHalfword(m, i);
      Bits2(i, 10) == 3 && e.outcome.Completed? ==> e.state.r[Bits3(i, 0)] < 0x1_0000
    ensures Bits2(i, 10) == 3 ==>
      LoadStoreSignExtendedByteHalfword(m, i) == LoadStoreSignExtendedByteHalfword(m, i & 0xF7FF)
  {
    var rd := Bits3(i, 0);
    var address := RegisterOffsetAddress(m, i);
    match Bits2(i, 10)
    case 0 => Store16Frame(m, address, ToHalfWord(m.r[rd])[0]);
    case 1 => Load16Frame(m, rd, address);
    case 2 => Load8Frame(m, rd, address);
    case 3 =>
      Load16sFrame(m, rd, address);
      var j := i & 0xF7FF;
      assert Bits3(j, 0) == rd && Bits3(j, 3) == Bits3(i, 3) && Bits3(j, 6) == Bits3(i, 6);
      assert Bits2(j, 10) == 1;
      Memory.Read16sIsRead16(m.mem, address);
  }

  /** The immediate-offset format: the stores change memory only, the
      loads only Rd. */
  lemma {:induction false} ImmediateOffsetFrame(m: Machine, i: bv16)
    ensures var e := LoadStoreWithImmediateOffset(m, i);
      Bits2(i, 11) < 2 ==> e.state == m.(mem := e.state.mem)
    ensures var e := LoadStoreWithImmediateOffset(m, i);
      var rd := Bits3(i, 0);
      Bits2(i, 11) >= 2 ==> e.state == m.(r := m.r[rd := e.state.r[rd]])
  {
    var rd := Bits3(i, 0);
    match Bits2(i, 11)
    case 0 =>
      var a := RegisterOffsetAddress(m, i);
      assert LoadStoreWithImmediateOffset(m, i) == Store32(m, a, m.r[rd]);
      Store32Frame(m, a, m.r[rd]);
    case 1 =>
      var a := RegisterOffsetAddress(m, i);
      assert LoadStoreWithImmediateOffset(m, i) == Store8(m, a, LowByte(m.r[rd]));
      Store8Frame(m, a, LowByte(m.r[rd]));
    case 2 =>
      var a := RegisterOffsetAddress(m, i);
      assert LoadStoreWithImmediateOffset(m, i) == Load32(m, rd, a);
      Load32Frame(m, rd, a);
    case 3 =>
      var a := Wrap(m.r[Bits3(i, 3)] as int + Bits5(i, 6));
      assert LoadStoreWithImmediateOffset(m, i) == Load8(m, rd, a);
      Load8Frame(m, rd, a);
  }

  /** STR R0, [R1, #4] (0x6048) stores at R1 + R[1], not at R1 + 4: with
      R1 = 8 the word goes to address 16. */
  lemma {:induction false} ImmediateOffsetReadsRegister(m: Machine)
    requires m.r[1] == 8
    ensures LoadStoreWithImmediateOffset(m, 0x6048) == Store32(m, 16, m.r[0])
  {
    assert Bits2(0x6048, 11) == 0 && Bits3(0x6048, 0) == 0;
    assert Bits3(0x6048, 3) == 1 && Bits3(0x6048, 6) == 1;
  }

  /** LDRB is the one immediate-offset access that adds the five-bit
      immediate: LDRB R0, [R1, #5] (0x7948) reads the byte at R1 + 5. */
  lemma {:induction false} ImmediateOffsetByteLoad(m: Machine)
    ensures LoadStoreWithImmediateOffset(m, 0x7948) == Load8(m, 0, Wrap(m.r[1] as int + 5))
  {
    assert Bits2(0x7948, 11) == 3 && Bits3(0x7948, 0) == 0;
    assert Bits3(0x7948, 3) == 1 && Bits5(0x7948, 6) == 5;
  }

  /** The halfword immediate-offset format never loads and never changes a
      register: both of its cases store. */
  lemma {:induction false} HalfwordImmediateOnlyStores(m: Machine, i: bv16)
    ensures var e := LoadStoreHalfwordImmediateOffset(m, i);
      e.state == m.(mem := e.state.mem)
  {
    var rd := Bits3(i, 0);
    var address := RegisterOffsetAddress(m, i);
    if Flag(i, 0x800) {
      assert LoadStoreHalfwordImmediateOffset(m, i) == Store16(m, address, ToHalfWord(m.r[rd])[0]);
      Store16Frame(m, address, ToHalfWord(m.r[rd])[0]);
    } else {
      assert LoadStoreHalfwordImmediateOffset(m, i) == Store8(m, address, LowByte(m.r[rd]));
      Store8Frame(m, address, LowByte(m.r[rd]));
    }
  }

  /** The SP-relative store changes memory only. */
  lemma {:induction false} SpRelativeStoreFrame(m: Machine, i: bv16)
    requires Flag(i, 0x800)
    ensures var e := SpRelativeLoadStore(m, i); e.state == m.(mem := e.state.mem)
  {
    var address := Wrap(m.r[Bits3(i, 3)] as int + 4 * Bits5(i, 6));
    assert SpRelativeLoadStore(m, i) == Store32(m, address, m.r[Bits3(i, 0)]);
    Store32Frame(m, address, m.r[Bits3(i, 0)]);
  }

  /** The SP-relative load changes only Rd. */
  lemma {:induction false} SpRelativeLoadFrame(m: Machine, i: bv16)
    requires !Flag(i, 0x800)
    ensures var e := SpRelativeLoadStore(m, i);
      var rd := Bits3(i, 0);
      e.state == m.(r := m.r[rd := e.state.r[rd]])
  {
    var address := Wrap(m.r[Bits3(i, 3)] as int + 4 * Bits5(i, 6));
    Load32Frame(m, Bits3(i, 0), address);
  }

  /** The base of the SP-relative format is the register in bits 3..5, not
      SP: 0x9001 loads R1 from the word at R0. */
  lemma {:induction false} SpRelativeIgnoresStackPointer(m: Machine)
    ensures SpRelativeLoadStore(m, 0x9001) == Load32(m, 1, m.r[0])
  {
    assert !Flag(0x9001, 0x800) && Bits3(0x9001, 0) == 1;
    assert Bits3(0x9001, 3) == 0 && Bits5(0x9001, 6) == 0;
  }
}
