/** Instruction execution (CortexM4-CSharp/CPU.cs:47-150 and 209-375): the
    dispatch of one instruction to its handler, one iteration of the run
    loop, `Run(n)` and `Reset`, as functions on the machine state. */
module Execution {
  import opened Words
  import opened Faults
  import opened Machines
  import opened Decoding
  import Memory
  import DataProcessing
  import Transfers
  import Branches

  /** `ExecuteOp(instruction)`: the handler Decode picks. The recognised
      stubs throw NotImplemented and change nothing; an instruction no entry
      matches throws UnknownInstruction. */
  function Execute(m: Machine, i: bv16): Exec {
    match Decode(i)
    case Nop => Done(m)
    case CpsiDE => Fail(m, NotImplemented(Cps))
    case WaitForInterruptEvent => Fail(m, NotImplemented(Wfx))
    case SendEvent => Fail(m, NotImplemented(Sev))
    case SupervisorCall => Fail(m, NotImplemented(Svc))
    case Breakpoint => Fail(m, NotImplemented(Bkpt))
    case SoftwareInterrupt => Fail(m, NotImplemented(Swi))
    case AddOffsetToStackPointer => DataProcessing.AddOffsetToStackPointer(m, i)
    case LoadStoreWithRegisterOffset => Transfers.LoadStoreWithRegisterOffset(m, i)
    case LoadStoreSignExtendedByteHalfword => Transfers.LoadStoreSignExtendedByteHalfword(m, i)
    case PushPopRegisters => Transfers.PushPopRegisters(m, i)
    case AluOperations => DataProcessing.AluOperations(m, i)
    case HiRegisterOperationsBranchExchange => DataProcessing.HiRegisterOperationsBranchExchange(m, i)
    case AddSubtract => DataProcessing.AddSubtract(m, i)
    case PcRelativeLoad => Transfers.PcRelativeLoad(m, i)
    case UnconditionalBranch => Branches.UnconditionalBranch(m, i)
    case LoadStoreHalfwordImmediateOffset => Transfers.LoadStoreHalfwordImmediateOffset(m, i)
    case SpRelativeLoadStore => Transfers.SpRelativeLoadStore(m, i)
    case LoadAddress => DataProcessing.LoadAddress(m, i)
    case MultipleLoadStore => Transfers.MultipleLoadStore(m, i)
    case ConditionalBranch => Branches.ConditionalBranch(m, i)
    case LongBranchWithLink => Branches.LongBranchWithLink(m, i)
    case MoveCompareAddSubtractImmediate => DataProcessing.MoveCompareAddSubtractImmediate(m, i)
    case MoveShiftedRegister => DataProcessing.MoveShiftedRegister(m, i)
    case LoadStoreWithImmediateOffset => Transfers.LoadStoreWithImmediateOffset(m, i)
    case Unknown => Fail(m, UnknownInstruction(i))
  }

  /** The statements of the run loop before `ExecuteOp`: the queue moves up
      by one, PC gets R15, R15 moves two on, and PrefetchNext refills the
      second slot from PC + 2. */
  function Advance(m: Machine): Exec {
    PrefetchNext(Shifted(m))
  }

  /** The state Advance hands to PrefetchNext. */
  function Shifted(m: Machine): Machine {
    var m1 := m.(prefetch := m.prefetch[0 := m.prefetch[1]]);
    var m2 := m1.(pc := m1.r[PC_INDEX]);
    SetReg(m2, PC_INDEX, Wrap(m2.r[PC_INDEX] as int + 2))
  }

  /** One iteration of the run loop: the instruction in the first slot of
      the queue is taken, the state advanced, and the instruction executed. */
  function Step(m: Machine): Exec {
    var instruction := m.prefetch[0];
    var e := Advance(m);
    if e.outcome.Failed? then e else Execute(e.state, instruction as bv16)
  }

  /** Step either stops at a failed Advance or executes the first queued
      instruction on the state Advance leaves. */
  lemma StepAfterAdvance(m: Machine, e: Exec)
    requires e == Advance(m)
    ensures e.outcome.Failed? ==> Step(m) == e
    ensures e.outcome.Completed? ==> Step(m) == Execute(e.state, m.prefetch[0] as bv16)
  {
  }

  /** `n` applications of a transition, stopping at the first that throws. */
  function Iterate(step: Machine -> Exec, m: Machine, n: nat): Exec
    decreases n
  {
    if n == 0 then Done(m)
    else
      var e := step(m);
      if e.outcome.Failed? then e else Iterate(step, e.state, n - 1)
  }

  /** `n` iterations of the run loop. */
  function Steps(m: Machine, n: nat): Exec {
    Iterate(Step, m, n)
  }

  /** `Run(n_instr)`: Prefetch, then `n_instr` iterations. */
  function Run(m: Machine, n: nat): Exec {
    var e := Prefetch(m);
    if e.outcome.Failed? then e else Steps(e.state, n)
  }

  /** `PC_INIT_ADDRESS`: where the initial program counter is stored. */
  const PC_INIT_ADDRESS: Word := 4

  /** `Reset()`: Thumb state, PC from the word at PC_INIT_ADDRESS, R15 two
      bytes past it. The queue is not touched. */
  function Reset(m: Machine): Exec {
    var m1 := m.(t := true);
    match Memory.Read32(m1.mem, PC_INIT_ADDRESS)
    case Err(f) => Fail(m1, f)
    case Ok(pc) =>
      var m2 := m1.(pc := pc);
      Done(SetReg(m2, PC_INDEX, Wrap(m2.pc as int + 2)))
  }

  // ---------------------------------------------------------------------
  // The run loop keeps PC, R15 and the queue in step

  /** Between two iterations of the run loop: R15 is two bytes past PC, and
      the queue holds the halfwords at PC and PC + 2, the next two
      instructions. */
  predicate Coherent(m: Machine) {
    m.r[PC_INDEX] == Wrap(m.pc as int + 2) && QueueHolds(m, m.pc)
  }

  /** Coherence looks only at PC, R15, the queue and memory. */
  lemma CoherentFrame(m: Machine, m': Machine)
    requires Coherent(m)
    requires m'.pc == m.pc && m'.r[PC_INDEX] == m.r[PC_INDEX]
    requires m'.prefetch == m.prefetch && m'.mem == m.mem
    ensures Coherent(m')
  {
  }

  /** Advance moves PC to R15 and R15 two bytes on, and shifts the queue:
      the first slot gets the second. Nothing else changes. */
  lemma AdvanceFrame(m: Machine)
    ensures var e := Advance(m);
      && e.state == m.(r := e.state.r, pc := m.r[PC_INDEX], prefetch := e.state.prefetch)
      && e.state.r[PC_INDEX] == Wrap(m.r[PC_INDEX] as int + 2)
      && (forall k :: 0 <= k < 15 ==> e.state.r[k] == m.r[k])
      && e.state.prefetch[0] == m.prefetch[1]
  {
  }

  /** Advance fails exactly when the halfword at R15 + 2 cannot be read,
      and otherwise leaves that halfword in the second slot. */
  lemma AdvanceReads(m: Machine)
    ensures var e := Advance(m);
      && (e.outcome.Failed? <==> Memory.Read16(m.mem, Wrap(m.r[PC_INDEX] as int + 2)).Err?)
      && (e.outcome.Completed? ==> Memory.Read16(m.mem, Wrap(m.r[PC_INDEX] as int + 2)) == Ok(e.state.prefetch[1]))
  {
  }

  /** From a coherent state, the instruction Step takes from the first slot
      is the halfword at PC, and Advance moves PC two bytes on. */
  lemma AdvanceFetchesAtPc(m: Machine)
    requires Coherent(m)
    ensures Memory.Read16(m.mem, m.pc) == Ok(m.prefetch[0])
    ensures Advance(m).state.pc == Wrap(m.pc as int + 2)
  {
    AdvanceFrame(m);
  }

  /** An Advance that completes leaves a coherent state again. */
  lemma AdvanceKeepsCoherent(m: Machine)
    requires Coherent(m)
    ensures var e := Advance(m); e.outcome.Completed? ==> Coherent(e.state)
  {
    var s := Shifted(m);
    assert s.pc == Wrap(m.pc as int + 2) && s.mem == m.mem && s.prefetch[0] == m.prefetch[1];
    assert Memory.Read16(s.mem, s.pc) == Ok(s.prefetch[0]);
    assert s.r[PC_INDEX] == Wrap(s.pc as int + 2);
    PrefetchNextFillsQueue(s);
    var e := PrefetchNext(s);
    assert e.outcome.Completed? ==> e.state.r[PC_INDEX] == s.r[PC_INDEX] && e.state.pc == s.pc;
  }

  /** After a reset that completes, PC holds the word at PC_INIT_ADDRESS, R15
      is two past it and the Thumb bit is set; the reset fails exactly when
      that word cannot be read. Nothing else changes either way. */
  lemma ResetEffect(m: Machine)
    ensures var e := Reset(m);
      && (e.outcome.Failed? <==> Memory.Read32(m.mem, PC_INIT_ADDRESS).Err?)
      && e.state == m.(r := e.state.r, pc := e.state.pc, t := true)
      && (forall k :: 0 <= k < 15 ==> e.state.r[k] == m.r[k])
      && (e.outcome.Completed? ==>
            && WordAt(m.mem, PC_INIT_ADDRESS, e.state.pc)
            && e.state.r[PC_INDEX] == Wrap(e.state.pc as int + 2))
  {
  }

  /** The Prefetch that starts Run(n) makes a state with R15 two past PC
      coherent; in particular every state a completed reset leaves. */
  lemma PrefetchMakesCoherent(m: Machine)
    requires m.r[PC_INDEX] == Wrap(m.pc as int + 2)
    ensures Prefetch(m).outcome.Completed? ==> Coherent(Prefetch(m).state)
  {
    PrefetchOnlyFillsQueue(m);
    PrefetchFillsQueue(m);
  }

  /** The data-processing formats on low registers (shifts, add/subtract,
      the immediate format and the ALU) leave PC, R15, the queue and memory
      alone, so they keep the state coherent. */
  lemma ShiftKeepsCoherent(m: Machine, i: bv16)
    requires Coherent(m)
    ensures Coherent(DataProcessing.MoveShiftedRegister(m, i).state)
  {
    DataProcessing.MoveShiftedRegisterEffect(m, i);
    CoherentFrame(m, DataProcessing.MoveShiftedRegister(m, i).state);
  }

  lemma AddSubtractKeepsCoherent(m: Machine, i: bv16)
    requires Coherent(m)
    ensures Coherent(DataProcessing.AddSubtract(m, i).state)
  {
    DataProcessing.AddSubtractEffect(m, i);
    CoherentFrame(m, DataProcessing.AddSubtract(m, i).state);
  }

  lemma ImmediateKeepsCoherent(m: Machine, i: bv16)
    requires Coherent(m)
    ensures Coherent(DataProcessing.MoveCompareAddSubtractImmediate(m, i).state)
  {
    DataProcessing.MoveCompareAddSubtractImmediateEffect(m, i);
    CoherentFrame(m, DataProcessing.MoveCompareAddSubtractImmediate(m, i).state);
  }

  lemma AluKeepsCoherent(m: Machine, i: bv16)
    requires Coherent(m)
    ensures Coherent(DataProcessing.AluOperations(m, i).state)
  {
    DataProcessing.AluOperationsEffect(m, i);
    CoherentFrame(m, DataProcessing.AluOperations(m, i).state);
  }

  /** The three branch formats leave a coherent state whenever they
      complete: a taken branch refills the queue at its target, and one not
      taken changes nothing. */
  lemma ConditionalBranchKeepsCoherent(m: Machine, i: bv16)
    requires Coherent(m)
    ensures var e := Branches.ConditionalBranch(m, i); e.outcome.Completed? ==> Coherent(e.state)
  {
    var cond := Bits4(i, 8);
    if cond >= 14 {
      assert Branches.ConditionalBranch(m, i).outcome.Failed?;
    } else if Branches.Taken(m, cond) {
      Branches.ConditionalBranchJumps(m, i);
      JumpKeepsCoherent(m, Wrap(m.r[PC_INDEX] as int + 2 * Branches.SignedByte(i)));
    } else {
      assert Branches.ConditionalBranch(m, i) == Done(m);
    }
  }

  /** A completed jump leaves a coherent state at its target. */
  lemma JumpKeepsCoherent(m: Machine, target: Word)
    ensures var e := Jump(m, target); e.outcome.Completed? ==> Coherent(e.state)
  {
    JumpEffect(m, target);
  }

  lemma UnconditionalBranchKeepsCoherent(m: Machine, i: bv16)
    ensures var e := Branches.UnconditionalBranch(m, i); e.outcome.Completed? ==> Coherent(e.state)
  {
    Branches.UnconditionalBranchEffect(m, i);
  }

  lemma LongBranchKeepsCoherent(m: Machine, i: bv16)
    ensures var e := Branches.LongBranchWithLink(m, i); e.outcome.Completed? ==> Coherent(e.state)
  {
    Branches.LongBranchWithLinkEffect(m, i);
  }

  /** Execute runs the handler Decode picks. */
  lemma DispatchMoveShiftedRegister(m: Machine, i: bv16)
    requires Decode(i) == MoveShiftedRegister
    ensures Execute(m, i) == DataProcessing.MoveShiftedRegister(m, i)
  {
  }

  lemma DispatchAddSubtract(m: Machine, i: bv16)
    requires Decode(i) == AddSubtract
    ensures Execute(m, i) == DataProcessing.AddSubtract(m, i)
  {
  }

  lemma DispatchMoveCompareAddSubtractImmediate(m: Machine, i: bv16)
    requires Decode(i) == MoveCompareAddSubtractImmediate
    ensures Execute(m, i) == DataProcessing.MoveCompareAddSubtractImmediate(m, i)
  {
  }

  lemma DispatchAluOperations(m: Machine, i: bv16)
    requires Decode(i) == AluOperations
    ensures Execute(m, i) == DataProcessing.AluOperations(m, i)
  {
  }

  lemma DispatchConditionalBranch(m: Machine, i: bv16)
    requires Decode(i) == ConditionalBranch
    ensures Execute(m, i) == Branches.ConditionalBranch(m, i)
  {
  }

  lemma DispatchUnconditionalBranch(m: Machine, i: bv16)
    requires Decode(i) == UnconditionalBranch
    ensures Execute(m, i) == Branches.UnconditionalBranch(m, i)
  {
  }

  lemma DispatchLongBranchWithLink(m: Machine, i: bv16)
    requires Decode(i) == LongBranchWithLink
    ensures Execute(m, i) == Branches.LongBranchWithLink(m, i)
  {
  }

  lemma DispatchHiRegisterOperationsBranchExchange(m: Machine, i: bv16)
    requires Decode(i) == HiRegisterOperationsBranchExchange
    ensures Execute(m, i) == DataProcessing.HiRegisterOperationsBranchExchange(m, i)
  {
  }

  lemma DispatchLoadAddress(m: Machine, i: bv16)
    requires Decode(i) == LoadAddress
    ensures Execute(m, i) == DataProcessing.LoadAddress(m, i)
  {
  }

  lemma DispatchAddOffsetToStackPointer(m: Machine, i: bv16)
    requires Decode(i) == AddOffsetToStackPointer
    ensures Execute(m, i) == DataProcessing.AddOffsetToStackPointer(m, i)
  {
  }

  lemma DispatchPcRelativeLoad(m: Machine, i: bv16)
    requires Decode(i) == PcRelativeLoad
    ensures Execute(m, i) == Transfers.PcRelativeLoad(m, i)
  {
  }

  lemma DispatchLoadStoreWithRegisterOffset(m: Machine, i: bv16)
    requires Decode(i) == LoadStoreWithRegisterOffset
    ensures Execute(m, i) == Transfers.LoadStoreWithRegisterOffset(m, i)
  {
  }

  lemma DispatchLoadStoreSignExtendedByteHalfword(m: Machine, i: bv16)
    requires Decode(i) == LoadStoreSignExtendedByteHalfword
    ensures Execute(m, i) == Transfers.LoadStoreSignExtendedByteHalfword(m, i)
  {
  }

  lemma DispatchLoadStoreWithImmediateOffset(m: Machine, i: bv16)
    requires Decode(i) == LoadStoreWithImmediateOffset
    ensures Execute(m, i) == Transfers.LoadStoreWithImmediateOffset(m, i)
  {
  }

  lemma DispatchSpRelativeLoadStore(m: Machine, i: bv16)
    requires Decode(i) == SpRelativeLoadStore
    ensures Execute(m, i) == Transfers.SpRelativeLoadStore(m, i)
  {
  }

  lemma DispatchPushPopRegisters(m: Machine, i: bv16)
    requires Decode(i) == PushPopRegisters
    ensures Execute(m, i) == Transfers.PushPopRegisters(m, i)
  {
  }

  lemma DispatchMultipleLoadStore(m: Machine, i: bv16)
    requires Decode(i) == MultipleLoadStore
    ensures Execute(m, i) == Transfers.MultipleLoadStore(m, i)
  {
  }

  /** A state that differs from a coherent one in at most one register
      other than R15, and in the flags, is coherent. */
  lemma OneRegisterKeepsCoherent(m: Machine, m': Machine, k: RegIndex)
    requires Coherent(m) && k != PC_INDEX
    requires m' == m.(r := m.r[k := m'.r[k]], n := m'.n, z := m'.z, c := m'.c, v := m'.v)
    ensures Coherent(m')
  {
    CoherentFrame(m, m');
  }

  /** The loads write one low register, or R13 and low registers, and leave
      PC, R15, the queue and memory alone; POP {list, PC} refills the queue
      at the address it pops. */
  lemma PcRelativeLoadKeepsCoherent(m: Machine, i: bv16)
    requires Coherent(m)
    ensures Coherent(Transfers.PcRelativeLoad(m, i).state)
  {
    Transfers.PcRelativeLoadEffect(m, i);
    var e := Transfers.PcRelativeLoad(m, i);
    OneRegisterKeepsCoherent(m, e.state, Bits3(i, 8));
  }

  lemma RegisterOffsetLoadKeepsCoherent(m: Machine, i: bv16)
    requires Coherent(m) && Bits2(i, 10) >= 2
    ensures Coherent(Transfers.LoadStoreWithRegisterOffset(m, i).state)
  {
    Transfers.RegisterOffsetFrame(m, i);
    var e := Transfers.LoadStoreWithRegisterOffset(m, i);
    OneRegisterKeepsCoherent(m, e.state, Bits3(i, 0));
  }

  lemma SignExtendedLoadKeepsCoherent(m: Machine, i: bv16)
    requires Coherent(m) && Bits2(i, 10) != 0
    ensures Coherent(Transfers.LoadStoreSignExtendedByteHalfword(m, i).state)
  {
    Transfers.SignExtendedFormat(m, i);
    var e := Transfers.LoadStoreSignExtendedByteHalfword(m, i);
    OneRegisterKeepsCoherent(m, e.state, Bits3(i, 0));
  }

  lemma ImmediateOffsetLoadKeepsCoherent(m: Machine, i: bv16)
    requires Coherent(m) && Bits2(i, 11) >= 2
    ensures Coherent(Transfers.LoadStoreWithImmediateOffset(m, i).state)
  {
    Transfers.ImmediateOffsetFrame(m, i);
    var e := Transfers.LoadStoreWithImmediateOffset(m, i);
    OneRegisterKeepsCoherent(m, e.state, Bits3(i, 0));
  }

  lemma SpRelativeLoadKeepsCoherent(m: Machine, i: bv16)
    requires Coherent(m) && !Flag(i, 0x800)
    ensures Coherent(Transfers.SpRelativeLoadStore(m, i).state)
  {
    Transfers.SpRelativeLoadFrame(m, i);
    var e := Transfers.SpRelativeLoadStore(m, i);
    OneRegisterKeepsCoherent(m, e.state, Bits3(i, 0));
  }

  lemma PopKeepsCoherent(m: Machine, i: bv16)
    requires Coherent(m) && Flag(i, 0x4)
    ensures var e := Transfers.PushPopRegisters(m, i); e.outcome.Completed? ==> Coherent(e.state)
  {
    Transfers.PopDecoding(m, i);
    if Flag(i, 0x100) {
      PopPcKeepsCoherent(m, i, Transfers.PushPopRegisters(m, i));
    } else {
      PopListKeepsCoherent(m, i, Transfers.PushPopRegisters(m, i));
    }
  }

  lemma PopPcKeepsCoherent(m: Machine, i: bv16, e: Exec)
    requires e == Transfers.PopSlotsPc(m, Transfers.LowSlots(i), Wrap(m.r[SP_INDEX] as int + 4 + 4 * Transfers.ListCount(i)))
    ensures e.outcome.Completed? ==> Coherent(e.state)
  {
    Transfers.PopListPcEffect(m, i);
  }

  lemma PopListKeepsCoherent(m: Machine, i: bv16, e: Exec)
    requires Coherent(m)
    requires e == Transfers.PopSlots(m, Transfers.LowSlots(i), Wrap(m.r[SP_INDEX] as int + 4 * Transfers.ListCount(i)))
    ensures Coherent(e.state)
  {
    Transfers.PopListFrame(m, i);
    CoherentFrame(m, e.state);
  }

  lemma LoadMultipleKeepsCoherent(m: Machine, i: bv16)
    requires Coherent(m) && !Flag(i, 0x800)
    ensures Coherent(Transfers.MultipleLoadStore(m, i).state)
  {
    Transfers.LoadMultipleEffect(m, i);
    CoherentFrame(m, Transfers.MultipleLoadStore(m, i).state);
  }

  /** ADD Rd, PC/SP, #imm writes a low register and ADD SP, #imm writes R13. */
  lemma LoadAddressKeepsCoherent(m: Machine, i: bv16)
    requires Coherent(m)
    ensures Coherent(DataProcessing.LoadAddress(m, i).state)
  {
    DataProcessing.LoadAddressEffect(m, i);
    OneRegisterKeepsCoherent(m, DataProcessing.LoadAddress(m, i).state, Bits3(i, 8));
  }

  lemma StackAdjustmentKeepsCoherent(m: Machine, i: bv16)
    requires Coherent(m)
    ensures Coherent(DataProcessing.AddOffsetToStackPointer(m, i).state)
  {
    OneRegisterKeepsCoherent(m, DataProcessing.AddOffsetToStackPointer(m, i).state, SP_INDEX);
  }

  /** The hi-register ADD, CMP and MOV: a write to R0..R14 or to the flags
      keeps the state coherent, and a write to R15 jumps. */
  lemma HighRegisterKeepsCoherent(m: Machine, i: bv16)
    requires Coherent(m) && Bits4(i, 6) < 12
    ensures var e := DataProcessing.HiRegisterOperationsBranchExchange(m, i);
      e.outcome.Completed? ==> Coherent(e.state)
  {
    var op, lo := Bits4(i, 6), Bits3(i, 0);
    var e := DataProcessing.HiRegisterOperationsBranchExchange(m, i);
    if op in {0, 4, 8} {
      DataProcessing.HighRegisterUndefined(m, i);
    } else if op in {2, 3, 10, 11} {
      HighRegisterWriteKeepsCoherent(m, i);
    } else if op in {1, 9} {
      OneRegisterKeepsCoherent(m, e.state, lo);
    } else {
      CoherentFrame(m, e.state);
    }
  }

  lemma HighRegisterWriteKeepsCoherent(m: Machine, i: bv16)
    requires Coherent(m) && Bits4(i, 6) in {2, 3, 10, 11}
    ensures var e := DataProcessing.HiRegisterOperationsBranchExchange(m, i);
      e.outcome.Completed? ==> Coherent(e.state)
  {
    var op, lo, src := Bits4(i, 6), Bits3(i, 0), Bits3(i, 3);
    var value :=
      if op == 2 then Wrap(m.r[lo + 8] as int + m.r[src])
      else if op == 3 then Wrap(m.r[lo + 8] as int + m.r[src + 8])
      else if op == 10 then m.r[src]
      else m.r[src + 8];
    DataProcessing.HighRegisterWriteDecoding(m, i);
    AfterHighWriteKeepsCoherent(m, lo, value, DataProcessing.HiRegisterOperationsBranchExchange(m, i));
  }

  lemma AfterHighWriteKeepsCoherent(m: Machine, lo: nat, value: Word, e: Exec)
    requires Coherent(m) && lo < 8 && e == DataProcessing.AfterHighWrite(SetReg(m, lo + 8, value), lo)
    ensures e.outcome.Completed? ==> Coherent(e.state)
  {
    var m1 := SetReg(m, lo + 8, value);
    if lo == 7 {
      JumpKeepsCoherent(m1, ClearBit0(m1.r[PC_INDEX]));
    } else {
      OneRegisterKeepsCoherent(m, m1, lo + 8);
    }
  }

  /** BX and BLX either throw or jump. */
  lemma BranchExchangeKeepsCoherent(m: Machine, i: bv16)
    requires Bits4(i, 6) >= 12
    ensures var e := DataProcessing.HiRegisterOperationsBranchExchange(m, i);
      e.outcome.Completed? ==> Coherent(e.state)
  {
    var base := Bits4(i, 3);
    var m1 := m.(instrBase := base);
    DataProcessing.BranchExchangeDecoding(m, i);
    if Bits4(i, 6) <= 13 {
      BranchExchangeJumps(m1, base);
    } else {
      BranchExchangeJumps(m1.(r := m.r[LR_INDEX := m.r[PC_INDEX]]), base);
    }
  }

  lemma BranchExchangeJumps(m: Machine, base: RegIndex)
    ensures var e := DataProcessing.BranchExchange(m, base);
      e.outcome.Completed? ==> Coherent(e.state)
  {
    var m1 := SetReg(m, PC_INDEX, m.r[base]);
    JumpKeepsCoherent(m1.(t := true), ClearBit0(m1.r[PC_INDEX]));
  }

  /** The instructions that never write memory: every format except the
      stores (STR and STRB by register, STRH, the immediate-offset stores,
      the halfword-offset format, which only stores, the SP-relative store,
      PUSH and STMIA). */
  predicate WritesNoMemory(i: bv16) {
    match Decode(i)
    case LoadStoreWithRegisterOffset => Bits2(i, 10) >= 2
    case LoadStoreSignExtendedByteHalfword => Bits2(i, 10) != 0
    case LoadStoreWithImmediateOffset => Bits2(i, 11) >= 2
    case LoadStoreHalfwordImmediateOffset => false
    case SpRelativeLoadStore => !Flag(i, 0x800)
    case PushPopRegisters => Flag(i, 0x4)
    case MultipleLoadStore => !Flag(i, 0x800)
    case _ => true
  }

  /** Every instruction that writes no memory keeps the run loop coherent
      whenever it completes: it leaves PC, R15 and the queue alone, or it
      jumps and refills the queue at the target. */
  lemma ExecuteKeepsCoherent(m: Machine, i: bv16)
    requires Coherent(m) && WritesNoMemory(i)
    ensures Execute(m, i).outcome.Completed? ==> Coherent(Execute(m, i).state)
  {
    if Decode(i) in {MoveShiftedRegister, AddSubtract, MoveCompareAddSubtractImmediate, AluOperations,
                     ConditionalBranch, UnconditionalBranch, LongBranchWithLink} {
      DataOrBranchKeepsCoherent(m, i);
    } else if Decode(i) in {HiRegisterOperationsBranchExchange, LoadAddress, AddOffsetToStackPointer, PcRelativeLoad} {
      RegisterFormatKeepsCoherent(m, i);
    } else if Decode(i) in {LoadStoreWithRegisterOffset, LoadStoreSignExtendedByteHalfword,
                            LoadStoreWithImmediateOffset, SpRelativeLoadStore, PushPopRegisters, MultipleLoadStore} {
      LoadKeepsCoherent(m, i);
    }
  }

  /** The shift, add/subtract, immediate and ALU formats and the branches. */
  lemma DataOrBranchKeepsCoherent(m: Machine, i: bv16)
    requires Coherent(m)
    requires Decode(i) in {MoveShiftedRegister, AddSubtract, MoveCompareAddSubtractImmediate, AluOperations,
                           ConditionalBranch, UnconditionalBranch, LongBranchWithLink}
    ensures Execute(m, i).outcome.Completed? ==> Coherent(Execute(m, i).state)
  {
    match Decode(i)
    case MoveShiftedRegister =>
      ShiftKeepsCoherent(m, i);
      DispatchMoveShiftedRegister(m, i);
    case AddSubtract =>
      AddSubtractKeepsCoherent(m, i);
      DispatchAddSubtract(m, i);
    case MoveCompareAddSubtractImmediate =>
      ImmediateKeepsCoherent(m, i);
      DispatchMoveCompareAddSubtractImmediate(m, i);
    case AluOperations =>
      AluKeepsCoherent(m, i);
      DispatchAluOperations(m, i);
    case ConditionalBranch =>
      ConditionalBranchKeepsCoherent(m, i);
      DispatchConditionalBranch(m, i);
    case UnconditionalBranch =>
      UnconditionalBranchKeepsCoherent(m, i);
      DispatchUnconditionalBranch(m, i);
    case LongBranchWithLink =>
      LongBranchKeepsCoherent(m, i);
      DispatchLongBranchWithLink(m, i);
  }

  /** The hi-register format, ADD Rd, PC/SP, ADD SP and the PC-relative load. */
  lemma RegisterFormatKeepsCoherent(m: Machine, i: bv16)
    requires Coherent(m)
    requires Decode(i) in {HiRegisterOperationsBranchExchange, LoadAddress, AddOffsetToStackPointer, PcRelativeLoad}
    ensures Execute(m, i).outcome.Completed? ==> Coherent(Execute(m, i).state)
  {
    match Decode(i)
    case HiRegisterOperationsBranchExchange =>
      if Bits4(i, 6) < 12 {
        HighRegisterKeepsCoherent(m, i);
      } else {
        BranchExchangeKeepsCoherent(m, i);
      }
      DispatchHiRegisterOperationsBranchExchange(m, i);
    case LoadAddress =>
      LoadAddressKeepsCoherent(m, i);
      DispatchLoadAddress(m, i);
    case AddOffsetToStackPointer =>
      StackAdjustmentKeepsCoherent(m, i);
      DispatchAddOffsetToStackPointer(m, i);
    case PcRelativeLoad =>
      PcRelativeLoadKeepsCoherent(m, i);
      DispatchPcRelativeLoad(m, i);
  }

  /** The loads: LDR, LDRB, LDRH, LDSB and LDSH, the SP-relative load, POP
      and LDMIA. */
  lemma LoadKeepsCoherent(m: Machine, i: bv16)
    requires Coherent(m) && WritesNoMemory(i)
    requires Decode(i) in {LoadStoreWithRegisterOffset, LoadStoreSignExtendedByteHalfword,
                           LoadStoreWithImmediateOffset, SpRelativeLoadStore, PushPopRegisters, MultipleLoadStore}
    ensures Execute(m, i).outcome.Completed? ==> Coherent(Execute(m, i).state)
  {
    if Decode(i) in {LoadStoreWithRegisterOffset, LoadStoreSignExtendedByteHalfword, LoadStoreWithImmediateOffset} {
      OffsetLoadKeepsCoherent(m, i);
    } else {
      StackOrListLoadKeepsCoherent(m, i);
    }
  }

  lemma OffsetLoadKeepsCoherent(m: Machine, i: bv16)
    requires Coherent(m) && WritesNoMemory(i)
    requires Decode(i) in {LoadStoreWithRegisterOffset, LoadStoreSignExtendedByteHalfword, LoadStoreWithImmediateOffset}
    ensures Execute(m, i).outcome.Completed? ==> Coherent(Execute(m, i).state)
  {
    match Decode(i)
    case LoadStoreWithRegisterOffset =>
      RegisterOffsetLoadKeepsCoherent(m, i);
      DispatchLoadStoreWithRegisterOffset(m, i);
    case LoadStoreSignExtendedByteHalfword =>
      SignExtendedLoadKeepsCoherent(m, i);
      DispatchLoadStoreSignExtendedByteHalfword(m, i);
    case LoadStoreWithImmediateOffset =>
      ImmediateOffsetLoadKeepsCoherent(m, i);
      DispatchLoadStoreWithImmediateOffset(m, i);
  }

  lemma StackOrListLoadKeepsCoherent(m: Machine, i: bv16)
    requires Coherent(m) && WritesNoMemory(i)
    requires Decode(i) in {SpRelativeLoadStore, PushPopRegisters, MultipleLoadStore}
    ensures Execute(m, i).outcome.Completed? ==> Coherent(Execute(m, i).state)
  {
    match Decode(i)
    case SpRelativeLoadStore =>
      SpRelativeLoadKeepsCoherent(m, i);
      DispatchSpRelativeLoadStore(m, i);
    case PushPopRegisters =>
      PopKeepsCoherent(m, i);
      DispatchPushPopRegisters(m, i);
    case MultipleLoadStore =>
      LoadMultipleKeepsCoherent(m, i);
      DispatchMultipleLoadStore(m, i);
  }

  /** One iteration of the run loop from a coherent state whose next
      instruction writes no memory leaves a coherent state when it completes. */
  lemma StepKeepsCoherent(m: Machine)
    requires Coherent(m) && WritesNoMemory(m.prefetch[0] as bv16)
    ensures Step(m).outcome.Completed? ==> Coherent(Step(m).state)
  {
    var e := Advance(m);
    AdvanceKeepsCoherent(m);
    StepAfterAdvance(m, e);
    if e.outcome.Completed? {
      ExecuteKeepsCoherent(e.state, m.prefetch[0] as bv16);
    }
  }

  /** Every one of `n` iterations of `step` starts from a state where `ok`
      holds, as far as the run gets. */
  predicate IterationsFrom(step: Machine -> Exec, ok: Machine -> bool, m: Machine, n: nat)
    decreases n
  {
    n == 0 || (ok(m) && (step(m).outcome.Completed? ==> IterationsFrom(step, ok, step(m).state, n - 1)))
  }

  /** An invariant that every completed iteration starting where `ok` holds
      preserves holds at the end of every completed run whose iterations all
      start where `ok` holds. */
  lemma {:induction false} IterateKeeps(step: Machine -> Exec, ok: Machine -> bool, inv: Machine -> bool, m: Machine, n: nat)
    requires forall s :: inv(s) && ok(s) && step(s).outcome.Completed? ==> inv(step(s).state)
    requires inv(m) && IterationsFrom(step, ok, m, n)
    ensures Iterate(step, m, n).outcome.Completed? ==> inv(Iterate(step, m, n).state)
    decreases n
  {
    if n > 0 && step(m).outcome.Completed? {
      IterateKeeps(step, ok, inv, step(m).state, n - 1);
    }
  }

  /** The next instruction the run loop takes writes no memory. */
  predicate NextWritesNoMemory(m: Machine) {
    WritesNoMemory(m.prefetch[0] as bv16)
  }

  /** A run that starts coherent and whose instructions write no memory
      stays coherent to its end, unless an instruction throws. */
  lemma StepsKeepCoherent(m: Machine, n: nat)
    requires Coherent(m) && IterationsFrom(Step, NextWritesNoMemory, m, n)
    ensures Steps(m, n).outcome.Completed? ==> Coherent(Steps(m, n).state)
  {
    forall s | Coherent(s) && NextWritesNoMemory(s) && Step(s).outcome.Completed?
      ensures Coherent(Step(s).state)
    {
      StepKeepsCoherent(s);
    }
    IterateKeeps(Step, NextWritesNoMemory, Coherent, m, n);
  }

  /** Iterations compose: running a then b iterations is running a + b,
      unless one of the first a throws, which ends the run. */
  lemma {:induction false} IterateAdd(step: Machine -> Exec, m: Machine, a: nat, b: nat)
    ensures var e := Iterate(step, m, a);
      Iterate(step, m, a + b) == if e.outcome.Failed? then e else Iterate(step, e.state, b)
    decreases a
  {
    if a > 0 {
      var e := step(m);
      if e.outcome.Completed? {
        IterateAdd(step, e.state, a - 1, b);
        assert a - 1 + b + 1 == a + b;
      }
    }
  }

  /** The first of k + 1 iterations: the run ends there if it throws, and
      otherwise k iterations follow from the state it leaves. */
  lemma StepsFirst(goal: Exec, m: Machine, k: nat, e: Exec)
    requires goal == Steps(m, k + 1) && e == Step(m)
    ensures e.outcome.Failed? ==> goal == e
    ensures e.outcome.Completed? ==> goal == Steps(e.state, k)
  {
  }

  /** Three iterations that each complete end where the third one does. */
  lemma StepsThree(m: Machine, a: Machine, b: Machine, c: Machine)
    requires Step(m) == Done(a) && Step(a) == Done(b) && Step(b) == Done(c)
    ensures Steps(m, 3) == Done(c)
  {
    StepsFirst(Steps(m, 3), m, 2, Step(m));
    StepsFirst(Steps(a, 2), a, 1, Step(a));
    StepsFirst(Steps(b, 1), b, 0, Step(b));
  }
}
