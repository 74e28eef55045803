/** Instruction dispatch (`ExecuteOp`, CortexM4-CSharp/CPU.cs:209-319): an
    ordered chain of mask tests, the first of which that matches picks the
    handler. `Decode` is the chain as written; the lemmas below say, for
    every handler, exactly which instructions reach it, which shows what
    the order of the tests hides. */
module Decoding {
  import opened Faults

  datatype Handler =
    | Nop
    | CpsiDE                          // CPSIE / CPSID stub
    | WaitForInterruptEvent           // WFE / WFI stub
    | SendEvent                       // SEV stub
    | SupervisorCall                  // SVC stub
    | Breakpoint                      // BKPT stub
    | SoftwareInterrupt               // SWI stub (never reached)
    | AddOffsetToStackPointer
    | LoadStoreWithRegisterOffset
    | LoadStoreSignExtendedByteHalfword
    | PushPopRegisters
    | AluOperations
    | HiRegisterOperationsBranchExchange
    | AddSubtract
    | PcRelativeLoad
    | UnconditionalBranch
    | LoadStoreHalfwordImmediateOffset
    | SpRelativeLoadStore
    | LoadAddress
    | MultipleLoadStore
    | ConditionalBranch
    | LongBranchWithLink
    | MoveCompareAddSubtractImmediate
    | MoveShiftedRegister
    | LoadStoreWithImmediateOffset
    | Unknown                         // no test matched: ExecuteOp throws

  /** The handler `ExecuteOp` calls for `i`: its chain of tests, in order. */
  function Decode(i: bv16): Handler {
    if i == 0x46C0 then Nop
    else if i & 0xFFEF == 0xB662 then CpsiDE
    else if i & 0xFFEF == 0xBF20 then WaitForInterruptEvent
    else if i == 0xBF40 then SendEvent
    else if i & 0xFF00 == 0xDF00 then SupervisorCall
    else if i & 0xFF00 == 0xDE00 then Breakpoint
    else if i & 0xFF00 == 0xDF00 then SoftwareInterrupt
    else if i & 0xFF00 == 0xB000 then AddOffsetToStackPointer
    else if i & 0xF200 == 0x5000 then LoadStoreWithRegisterOffset
    else if i & 0xF200 == 0x5200 then LoadStoreSignExtendedByteHalfword
    else if i & 0xF600 == 0xB400 then PushPopRegisters
    else if i & 0xFC00 == 0x4000 then AluOperations
    else if i & 0xFC00 == 0x4400 then HiRegisterOperationsBranchExchange
    else if i & 0xF800 == 0x1800 then AddSubtract
    else if i & 0xF800 == 0x4800 then PcRelativeLoad
    else if i & 0xF800 == 0x7000 then UnconditionalBranch
    else if i & 0xF800 == 0x7000 then UnconditionalBranch
    else if i & 0xF000 == 0x8000 then LoadStoreHalfwordImmediateOffset
    else if i & 0xF000 == 0x9000 then SpRelativeLoadStore
    else if i & 0xF000 == 0xA000 then LoadAddress
    else if i & 0xF000 == 0xC000 then MultipleLoadStore
    else if i & 0xF000 == 0xD000 then ConditionalBranch
    else if i & 0xF000 == 0xF000 then LongBranchWithLink
    else if i & 0xE000 == 0x2000 then MoveCompareAddSubtractImmediate
    else if i & 0xE000 == 0x0000 then MoveShiftedRegister
    else if i & 0xE000 == 0x6000 then LoadStoreWithImmediateOffset
    else Unknown
  }

  // ---------------------------------------------------------------------
  // Which instructions reach which handler

  /** The exact-match entries and the stubs. 0x46C0 is a NOP although it
      also fits the hi-register mask, and the second 0xDF00 test (the SWI
      entry) is never reached: the SVC entry before it has the same test. */
  lemma DecodeSpecialEntries(i: bv16)
    ensures Decode(i) == Nop <==> i == 0x46C0
    ensures Decode(i) == CpsiDE <==> i & 0xFFEF == 0xB662
    ensures Decode(i) == WaitForInterruptEvent <==> i & 0xFFEF == 0xBF20
    ensures Decode(i) == SendEvent <==> i == 0xBF40
    ensures Decode(i) == SupervisorCall <==> i & 0xFF00 == 0xDF00
    ensures Decode(i) == Breakpoint <==> i & 0xFF00 == 0xDE00
    ensures Decode(i) != SoftwareInterrupt
  {
  }

  /** The entries whose own test is cut down by an earlier one: the
      hi-register format loses 0x46C0 to NOP, the conditional branch loses
      conditions 1110 and 1111 to BKPT and SVC, the shift format loses the
      add/subtract encodings, and the immediate-offset load/store loses
      0x7000..0x77FF to the unconditional branch entry (whose duplicate at
      the next line is never reached). */
  lemma DecodeShadowedEntries(i: bv16)
    ensures Decode(i) == HiRegisterOperationsBranchExchange <==> i & 0xFC00 == 0x4400 && i != 0x46C0
    ensures Decode(i) == ConditionalBranch <==> i & 0xF000 == 0xD000 && i & 0xFE00 != 0xDE00
    ensures Decode(i) == MoveShiftedRegister <==> i & 0xE000 == 0x0000 && i & 0xF800 != 0x1800
    ensures Decode(i) == UnconditionalBranch <==> i & 0xF800 == 0x7000
    ensures Decode(i) == LoadStoreWithImmediateOffset <==> i & 0xE000 == 0x6000 && i & 0xF800 != 0x7000
  {
  }

  /** The entries that win for every instruction their test accepts: the
      data-processing formats, */
  lemma DecodeDataProcessingEntries(i: bv16)
    ensures Decode(i) == AddOffsetToStackPointer <==> i & 0xFF00 == 0xB000
    ensures Decode(i) == AluOperations <==> i & 0xFC00 == 0x4000
    ensures Decode(i) == AddSubtract <==> i & 0xF800 == 0x1800
    ensures Decode(i) == LoadAddress <==> i & 0xF000 == 0xA000
    ensures Decode(i) == MoveCompareAddSubtractImmediate <==> i & 0xE000 == 0x2000
  {
  }

  /** the register-list and register-offset transfers, */
  lemma DecodeTransferEntries(i: bv16)
    ensures Decode(i) == LoadStoreWithRegisterOffset <==> i & 0xF200 == 0x5000
    ensures Decode(i) == LoadStoreSignExtendedByteHalfword <==> i & 0xF200 == 0x5200
    ensures Decode(i) == PushPopRegisters <==> i & 0xF600 == 0xB400
    ensures Decode(i) == PcRelativeLoad <==> i & 0xF800 == 0x4800
  {
  }

  /** the immediate-offset, SP-relative and multiple transfers, */
  lemma DecodeBlockTransferEntries(i: bv16)
    ensures Decode(i) == LoadStoreHalfwordImmediateOffset <==> i & 0xF000 == 0x8000
    ensures Decode(i) == SpRelativeLoadStore <==> i & 0xF000 == 0x9000
    ensures Decode(i) == MultipleLoadStore <==> i & 0xF000 == 0xC000
  {
  }

  /** and the long branch with link. */
  lemma DecodeLongBranchEntry(i: bv16)
    ensures Decode(i) == LongBranchWithLink <==> i & 0xF000 == 0xF000
  {
  }

  /** An instruction reaches no handler exactly when its top nibble is 1110
      (so no 0xE000 branch is ever executed) or it is one of the 1011
      encodings no entry covers. */
  lemma DecodeUnknown(i: bv16)
    ensures Decode(i) == Unknown <==>
      || i & 0xF000 == 0xE000
      || (&& i & 0xF000 == 0xB000
          && i & 0xFF00 != 0xB000 && i & 0xF600 != 0xB400
          && i & 0xFFEF != 0xB662 && i & 0xFFEF != 0xBF20 && i != 0xBF40)
  {
  }
}
