# CortexM4F-CSharp core, modelled in Dafny

This project models the emulator core of `CortexM4_CSharp.New`. The core is a
Thumb-instruction interpreter: a `CPU` object owns a `Registers` file and an
`MMU`. `Reset` loads the program counter from address 4. `Run(n)` fills a
two-halfword prefetch queue and then repeats one step `n` times:
- take the head of the queue;
- shift the queue;
- move PC to R15 and add two to R15;
- fetch the next halfword;
- hand the instruction to `ExecuteOp`.

`ExecuteOp` tests the instruction against a chain of masks and calls one
handler per Thumb format. The `MMU` routes each access to a 256-byte code
array. It has an SRAM array, but the constants make the SRAM range
unreachable. It also keeps a list of peripherals whose address ranges must
not overlap. `Utils` holds the sign-bit formulas for the carry and overflow
flags.

The model has two layers:

- **Values.** `Machines.Machine` is the whole state: registers, PC, SP,
  flags, the prefetch queue, both memory arrays and `instrBase`. Each handler
  is a function from a machine and an instruction to an `Exec`, which is the
  new state plus `Completed` or `Failed(fault)`. A C# exception becomes
  `Failed`, and it keeps the state as it stood when the exception was
  thrown. For example, BX to an even address has already written R15 when it
  throws.
- **Objects.** `RegisterFile.Registers`, `Mmu.MMU` and `Cpu.CPU` are classes
  over arrays. Each method that changes state is proved against the value
  function that describes it, through the `Abs()` state its fields hold.

Registers and addresses are the subset types `Word`, `Half` and `Byte` of
`int`. Every `uint` overflow in the source is an explicit `Wrap` modulo 2^32.
The bitwise tests on instruction fields stay on `bv16`.

Files:

- `Words`, `Faults`: machine words and the failures the source throws.
- `Memory`, `Mmu`: the memory map, as values and as the `MMU` class.
- `Utils`, `Peripheral`, `Registers`: the three small core files.
- `Machine`: the state, the loads and stores through the MMU, and the
  prefetch queue.
- `Decode`: the dispatch chain of `ExecuteOp`.
- `DataProcessing`, `Transfers`, `Branches`: the handlers.
- `Execution`: `ExecuteOp`, the run-loop step, `Run(n)` and `Reset`, as
  functions.
- `Cpu`: the `CPU` class.
- `Scenario`: the three-instruction image that `Program.cs` loads.

Where the code departs from the Thumb architecture, the model follows the
code. Lemmas state each departure. Some examples:
- BEQ tests C (`Branches.TakenAgreesWithArchitecture`).
- PUSH/POP choose their mode from bit 2 (`Transfers.ModeBitIsR2`). So
  PUSH {R0-R2} (0xB407) pops and POP {R0, R1} (0xBC03) pushes
  (`Transfers.PushOfR2Pops`, `Transfers.PopWithoutR2Pushes`). PUSH {R0-R2}
  followed by POP {R0-R2} is two pops and does not give R0..R2 back.
- ASR shifts logically (`DataProcessing.AsrShiftsLogically`).
- SUB #imm computes C with `AddCarry` (`DataProcessing.SubtractImmediateCarry`).
- Loads and stores with an immediate offset add the register the offset
  field names (`Transfers.ImmediateOffsetReadsRegister`).
- The LDRH format only stores (`Transfers.HalfwordImmediateOnlyStores`).
- The SP-relative format uses Rb instead of SP
  (`Transfers.SpRelativeIgnoresStackPointer`).

The source counts the registers of a list by looking up
`cpuBitsSet[i & 0xFF]`. The handlers in the model use `Transfers.ListCount`,
the number of bits set among the low eight bits, instead of the array.
`Cpu.CPU.InitCpuBitsSet` ensures `Cpu.CPU.TableFilled`, which says that every
entry of the filled table is that count, so the lookup and the function agree
once the constructor has run.

## Model

| member | source | states |
|---|---|---|
| Utils.Neg | CortexM4-CSharp/Utils.cs:12-15 | `i >> 31` is 0 or 1 |
| Utils.Pos | CortexM4-CSharp/Utils.cs:17-20 | `~i >> 31` is exactly one minus `Neg(i)` |
| Utils.NegAndPosAreShifts | CortexM4-CSharp/Utils.cs:12-20 | Neg is bit 31 of `i` and Pos is bit 31 of its complement, as quotients by 2^31 |
| Utils.AddCarryIsUnsignedCarry | CortexM4-CSharp/Utils.cs:22-25 | with `c` the wrapped sum, AddCarry holds exactly when `a + b` carries out of 32 bits |
| Utils.AddOverflowIsSignedOverflow | CortexM4-CSharp/Utils.cs:27-30 | with `c` the wrapped sum, AddOverflow holds exactly when the signed sum leaves the `int` range |
| Utils.SubCarryIsNoBorrow | CortexM4-CSharp/Utils.cs:32-35 | with `c` the wrapped difference, SubCarry holds exactly when `a >= b` (no borrow) |
| Utils.SubOverflowIsSignedOverflow | CortexM4-CSharp/Utils.cs:37-40 | with `c` the wrapped difference, SubOverflow holds exactly when the signed difference leaves the `int` range |
| Utils.FlagsReadOnlyBit31 | CortexM4-CSharp/Utils.cs:22-40 | each of the four flag formulas depends only on bit 31 of its three arguments |
| Utils.ToHalfWord | CortexM4-CSharp/Utils.cs:42-47 | two halfwords, low first, whose combination is the value |
| Utils.ToHalfWordIsUnique | CortexM4-CSharp/Utils.cs:42-47 | any pair of halfwords that recombines to the value is the result, so the split is unique |
| Words.ShiftsBelow32 | CortexM4-CSharp/CPU.cs:391-392 | for counts below 32, C#'s `x << n` is `x * 2^n mod 2^32`, `x >> n` is `x / 2^n`, and bit n is the parity of that quotient |
| Words.ShiftCountsMasked | CortexM4-CSharp/CPU.cs:391-403 | C# masks shift counts to five bits: `x >> 32` is x, so "bit 32" is bit 0, and "bit -1" is bit 31 |
| Words.SarIsFloorDivision | CortexM4-CSharp/CPU.cs:600-601 | below 32, `(int)x >> n` is the signed value of x divided by 2^n, rounded down, read back as a word |
| Peripherals.ConstructorAndGetters | CortexM4-CSharp/Peripheral.cs:15-41 | the getters return the constructor's start and end addresses, and the name is unset |
| Peripherals.InConflictIsSymmetric | CortexM4-CSharp/Peripheral.cs:43-47 | `p.InConflict(q)` equals `q.InConflict(p)` |
| Peripherals.InConflictIsOverlap | CortexM4-CSharp/Peripheral.cs:43-47 | for non-empty ranges: conflict exactly when the two closed ranges share an address |
| Peripherals.SharedEndpointConflicts | CortexM4-CSharp/Peripheral.cs:43-47 | ranges that meet at one address conflict both ways |
| Peripherals.SelfConflict | CortexM4-CSharp/Peripheral.cs:43-47 | a well-formed peripheral conflicts with itself |
| Peripherals.InRangeRejectsInterior | CortexM4-CSharp/Peripheral.cs:49-52 | as written, InRange is false for every address above the start, and true at the start exactly when the range is non-empty |
| Peripherals.RegisterKeepsConflictFree | CortexM4-CSharp/MMU.cs:37-48 | a successful registration keeps the registry pairwise conflict-free |
| Peripherals.RegisterOutcome | CortexM4-CSharp/MMU.cs:37-48 | registration fails exactly when some registered peripheral conflicts with the new one; otherwise it appends it at the end and keeps the rest |
| Peripherals.RegisterTwiceFails | CortexM4-CSharp/MMU.cs:37-48 | registering a peripheral already present throws |
| Memory.Bytes16RoundTrip | CortexM4-CSharp/MMU.cs:96-129 | reading back the two little-endian bytes of a halfword gives the halfword |
| Memory.FromBytes16RoundTrip | CortexM4-CSharp/MMU.cs:96-129 | re-encoding the halfword read from two bytes gives the bytes |
| Memory.Bytes32RoundTrip | CortexM4-CSharp/MMU.cs:55-88 | reading back the four little-endian bytes of a word gives the word |
| Memory.FromBytes32RoundTrip | CortexM4-CSharp/MMU.cs:55-88 | re-encoding the word read from four bytes gives the bytes |
| Memory.Load | CortexM4-CSharp/MMU.cs:76-88 | an array read succeeds exactly when the bytes lie inside the array, and it returns `size` bytes |
| Memory.Store | CortexM4-CSharp/MMU.cs:55-69 | an `Array.Copy` succeeds exactly when the bytes fit, and it keeps the array length |
| Memory.SramNeverRouted | CortexM4-CSharp/MMU.cs:15-18 | with codeEnd 255 and sramEnd 0, no address reaches the SRAM array; the code array takes exactly the addresses up to 255 |
| Memory.SramUntouched | CortexM4-CSharp/MMU.cs:55-187 | reads never look at the SRAM array, and successful writes never change it |
| Memory.AboveCodeEndIsUnmapped | CortexM4-CSharp/MMU.cs:55-187 | above codeEnd every read returns 0 and every write leaves memory unchanged |
| Memory.Read16sIsRead16 | CortexM4-CSharp/MMU.cs:117-148 | Read16s is the same unsigned read as Read16 |
| Memory.Write8ThenRead8 | CortexM4-CSharp/MMU.cs:156-187 | a byte written inside the code array reads back, and no other byte changes |
| Memory.Write16ThenRead16 | CortexM4-CSharp/MMU.cs:96-129 | a halfword written inside the code array reads back, and bytes outside it are unchanged |
| Memory.Write32ThenRead32 | CortexM4-CSharp/MMU.cs:55-88 | a word written inside the code array reads back, and bytes outside it are unchanged |
| Memory.Read32FromSameBytes | CortexM4-CSharp/MMU.cs:76-88 | two memories that agree on the four bytes of a word inside the code array read the same word there |
| Memory.AccessFailsPastArrayEnd | CortexM4-CSharp/MMU.cs:55-187 | with a 256-byte array, word accesses throw exactly at 253..255, halfword accesses exactly at 255, and byte accesses never |
| Mmu.CopyInto | CortexM4-CSharp/MMU.cs:60 | `Array.Copy` into the array: the stored bytes on success; on failure the array is unchanged and the fault is returned |
| Mmu.MMU.constructor | CortexM4-CSharp/MMU.cs:25-30 | keeps the two given arrays and starts with no peripherals |
| Mmu.MMU.RegisterPeripheral | CortexM4-CSharp/MMU.cs:37-48 | the new list is `Register(old list, periph)` on success; on a conflict the list is unchanged and the method throws |
| Mmu.MMU.Write32 | CortexM4-CSharp/MMU.cs:55-69 | the arrays afterwards hold `Memory.Write32` of their old contents; a failure leaves them unchanged |
| Mmu.MMU.Write16 | CortexM4-CSharp/MMU.cs:96-110 | the arrays afterwards hold `Memory.Write16` of their old contents; a failure leaves them unchanged |
| Mmu.MMU.Write8 | CortexM4-CSharp/MMU.cs:156-168 | the arrays afterwards hold `Memory.Write8` of their old contents; a failure leaves them unchanged |
| RegisterFile.Registers.constructor | CortexM4-CSharp/Registers.cs:22-34 | sixteen zero registers, PC and SP zero, every flag false, a zeroed two-slot queue |
| Machines.SetReg | CortexM4-CSharp/CPU.cs:393 | `R[k] = value` changes register `k` only |
| Machines.Load32Reads | CortexM4-CSharp/CPU.cs:160-167 | a word load completes exactly when the read succeeds, and the register then holds the word at the address |
| Machines.PrefetchFillsQueue | CortexM4-CSharp/CPU.cs:140-144 | a completed Prefetch leaves the halfwords at PC and PC+2 in the queue and changes nothing else |
| Machines.PrefetchOnlyFillsQueue | CortexM4-CSharp/CPU.cs:140-144 | whatever its outcome, Prefetch changes only the queue |
| Machines.PrefetchFailsOnRead | CortexM4-CSharp/CPU.cs:140-144 | Prefetch fails exactly when one of its two halfword reads fails |
| Machines.PrefetchNextFillsQueue | CortexM4-CSharp/CPU.cs:145-148 | when slot 0 already holds the halfword at PC, a completed PrefetchNext leaves the queue holding PC and PC+2 and changes only the queue |
| Machines.JumpEffect | CortexM4-CSharp/CPU.cs:1231-1234 | the common tail of taken branches: PC is the target, R15 is target+2, and only the queue may change besides; on completion the queue holds the target |
| Decoding.DecodeSpecialEntries | CortexM4-CSharp/CPU.cs:211-238 | the exact masks that select NOP, CPSIE/CPSID, WFI/WFE, SEV, SVC and BKPT; the software-interrupt entry is shadowed by SVC and is never chosen |
| Decoding.DecodeShadowedEntries | CortexM4-CSharp/CPU.cs:259-314 | the entries that earlier tests shadow: hi-register ops, conditional branch, shifts, B and immediate-offset transfers, each with the instructions it actually receives |
| Decoding.DecodeDataProcessingEntries | CortexM4-CSharp/CPU.cs:239-306 | the exact masks that reach ADD SP, ALU, ADD/SUB, ADR and the immediate format |
| Decoding.DecodeTransferEntries | CortexM4-CSharp/CPU.cs:243-270 | the exact masks that reach the register-offset, sign-extended, PUSH/POP and PC-relative transfers |
| Decoding.DecodeBlockTransferEntries | CortexM4-CSharp/CPU.cs:279-294 | the exact masks that reach the halfword-immediate, SP-relative and multiple transfers |
| Decoding.DecodeLongBranchEntry | CortexM4-CSharp/CPU.cs:299-302 | the long branch with link takes exactly the instructions with top nibble 0xF |
| Decoding.DecodeUnknown | CortexM4-CSharp/CPU.cs:315-318 | the instructions no entry matches are exactly 0xExxx and the unmatched 0xBxxx ones |
| DataProcessing.MoveShiftedRegisterEffect | CortexM4-CSharp/CPU.cs:377-425 | op 3 throws and changes nothing; otherwise only Rd, N, Z and C change, V is kept, and N and Z describe Rd; for offsets 1..31 LSL leaves `R[rs] * 2^n mod 2^32` with C bit `32 - n` of R[rs], and LSR and ASR leave `R[rs] / 2^n` with C bit `n - 1`; offset 0 leaves R[rs] with C bit 0 for LSL and bit 31 for LSR and ASR |
| DataProcessing.ShiftByImmediateFrame | CortexM4-CSharp/CPU.cs:384-420 | each of the three shifts writes only Rd, N, Z and C, keeps V, and N and Z describe Rd |
| DataProcessing.ShiftByImmediateValue | CortexM4-CSharp/CPU.cs:384-420 | the values and carries of the three shifts by an immediate, for offsets 0..31, as in MoveShiftedRegisterEffect |
| DataProcessing.ShiftLeftImmediate | CortexM4-CSharp/CPU.cs:388-397 | LSL #n, 0 < n < 32: `R[rs] * 2^n mod 2^32` with C bit `32 - n`; LSL #0: R[rs] with C bit 0, since the count 32 is masked to 0 |
| DataProcessing.ShiftRightImmediate | CortexM4-CSharp/CPU.cs:400-420 | LSR/ASR #n, 0 < n < 32: `R[rs] / 2^n` with C bit `n - 1`; #0: R[rs] with C bit 31, since the count -1 is masked to 31 |
| DataProcessing.AsrShiftsLogically | CortexM4-CSharp/CPU.cs:412-421 | as written, ASR #n gives the same result as LSR #n |
| DataProcessing.AddSubtractEffect | CortexM4-CSharp/CPU.cs:427-443 | completes, writes at most Rd and the flags, and N and Z describe Rd |
| DataProcessing.AddRegisterFlags | CortexM4-CSharp/CPU.cs:427-443 | ADD with Rd != Rs: Rd is the wrapped sum, C is the unsigned carry, V the signed overflow |
| DataProcessing.SubtractRegisterFlags | CortexM4-CSharp/CPU.cs:427-443 | SUB with Rd != Rs: Rd is the wrapped difference, and C and V come from AddCarry and AddOverflow, as written |
| DataProcessing.SubtractWithoutBorrowClearsCarry | CortexM4-CSharp/CPU.cs:437-442 | SUB R0, R1, R2 with 5 and 3 gives 2 and clears C, the opposite of the no-borrow convention |
| DataProcessing.AddSubtractFlagsReadResult | CortexM4-CSharp/CPU.cs:437-442 | when Rd is Rs, the flags are computed from the value already overwritten |
| DataProcessing.MoveCompareAddSubtractImmediateEffect | CortexM4-CSharp/CPU.cs:445-499 | every op completes and writes at most Rd and the flags |
| DataProcessing.MoveImmediate | CortexM4-CSharp/CPU.cs:453-457 | MOV writes the immediate, clears N, sets Z exactly for zero, and keeps C and V |
| DataProcessing.CompareImmediate | CortexM4-CSharp/CPU.cs:458-469 | CMP writes no register, Z is equality, C is `a >= imm`, V the signed overflow of the difference |
| DataProcessing.AddImmediate | CortexM4-CSharp/CPU.cs:470-482 | ADD #imm writes the wrapped sum, with N and Z describing it |
| DataProcessing.AddImmediateCarryOverflow | CortexM4-CSharp/CPU.cs:470-482 | ADD #imm sets C exactly on unsigned carry and V exactly on signed overflow |
| DataProcessing.SubtractImmediate | CortexM4-CSharp/CPU.cs:483-495 | SUB #imm writes the wrapped difference, with N and Z describing it |
| DataProcessing.SubtractImmediateOverflow | CortexM4-CSharp/CPU.cs:483-495 | SUB #imm sets V exactly on signed overflow of the difference |
| DataProcessing.SubtractImmediateCarry | CortexM4-CSharp/CPU.cs:490 | SUB #imm sets C (from AddCarry, as written) exactly when bit 31 goes from 1 to 0 |
| DataProcessing.AddThenSubtractImmediate | CortexM4-CSharp/CPU.cs:470-495 | ADD Rd, #imm followed by SUB Rd, #imm restores every register |
| DataProcessing.ShiftLeftByRegister | CortexM4-CSharp/CPU.cs:533-562 | LSL Rd, Rs changes only Rd and C (the frame; the values are `ShiftLeftByRegisterValue`) |
| DataProcessing.ShiftRightByRegister | CortexM4-CSharp/CPU.cs:563-592 | LSR Rd, Rs changes only Rd and C (the frame; the values are `ShiftRightByRegisterValue`) |
| DataProcessing.ArithmeticShiftByRegister | CortexM4-CSharp/CPU.cs:593-620 | ASR Rd, Rs changes only Rd and C (the frame; the values are `ArithmeticShiftByRegisterValue`) |
| DataProcessing.AddWithCarry | CortexM4-CSharp/CPU.cs:621-634 | ADC changes only Rd and C |
| DataProcessing.SubtractWithCarry | CortexM4-CSharp/CPU.cs:635-648 | SBC changes only Rd and C |
| DataProcessing.ShiftLeftByRegisterValue | CortexM4-CSharp/CPU.cs:533-562 | with k the low byte of R[rs]: k = 0 changes nothing; 0 < k < 32 leaves `R[rd] * 2^k mod 2^32` with C bit `32 - k`; k = 32 leaves 0 with C bit 0; k > 32 leaves 0 with C clear; only Rd and C change |
| DataProcessing.ShiftRightByRegisterValue | CortexM4-CSharp/CPU.cs:563-592 | k = 0 changes nothing; 0 < k < 32 leaves `R[rd] / 2^k` with C bit `k - 1`; k = 32 leaves 0 with C bit 31; k > 32 leaves 0 with C clear; only Rd and C change |
| DataProcessing.ArithmeticShiftByRegisterValue | CortexM4-CSharp/CPU.cs:593-620 | k = 0 changes nothing; 0 < k < 32 leaves the signed R[rd] divided by 2^k, rounded down, with C bit `k - 1` of the signed value; k >= 32 leaves all sign bits with C clear; only Rd and C change |
| DataProcessing.AddWithCarryFlags | CortexM4-CSharp/CPU.cs:621-634 | ADC writes `a + b + C` wrapped; C is the unsigned carry, except when both operands are 0xFFFFFFFF with carry in |
| DataProcessing.SubtractWithCarryFlags | CortexM4-CSharp/CPU.cs:635-648 | SBC writes `R[rd] - b` wrapped, where `b = (R[rs] + C) mod 2^32`, and sets C exactly when `R[rd] < b`; with R[rs] = 0xFFFFFFFF and C set, b is 0 and C is cleared |
| DataProcessing.AluOperationFrame | CortexM4-CSharp/CPU.cs:511-648 | the seven reachable ALU operations write at most Rd and C |
| DataProcessing.AluOperationsEffect | CortexM4-CSharp/CPU.cs:501-712 | op 7 throws and changes nothing; otherwise only Rd and the flags change, V is kept, and N and Z describe Rd |
| DataProcessing.AluIgnoresBit9 | CortexM4-CSharp/CPU.cs:506 | the three-bit op mask ignores bit 9, so operations 8..15 are never reached |
| DataProcessing.HighRegisterWriteDecoding | CortexM4-CSharp/CPU.cs:725-838 | the ADD/MOV forms with a high destination write `Hd` with the sum or the moved value, then finish as a high-register write |
| DataProcessing.HighRegisterWrite | CortexM4-CSharp/CPU.cs:725-838 | a high-register write keeps the flags; below R15 it changes only that register; into R15 it jumps to the value with bit 0 cleared |
| DataProcessing.MoveToProgramCounter | CortexM4-CSharp/CPU.cs:809-823 | MOV PC, Rs is the jump to Rs with bit 0 cleared |
| DataProcessing.HighRegisterCompare | CortexM4-CSharp/CPU.cs:755-802 | CMP with a high register changes only the flags: Z is equality, C is `lhs >= rhs`, V the signed overflow |
| DataProcessing.HighRegisterUndefined | CortexM4-CSharp/CPU.cs:888-889 | ops 0, 4 and 8 throw and change nothing |
| DataProcessing.BranchExchangeEffect | CortexM4-CSharp/CPU.cs:839-863 | BX to an odd address sets T, jumps to the address minus one and keeps the flags and memory; to an even address it throws after writing R15 |
| DataProcessing.BranchExchangeDecoding | CortexM4-CSharp/CPU.cs:839-887 | ops 12-13 are BX Rs and ops 14-15 are BLX Rs, which first copies R15 into LR; both record `instrBase` |
| DataProcessing.BranchLinkExchangeTarget | CortexM4-CSharp/CPU.cs:864-887 | BLX leaves the old R15 in LR and branches to Rs (to the old R15 when Rs is LR) when it is odd; when it is even it throws |
| DataProcessing.LoadAddressEffect | CortexM4-CSharp/CPU.cs:1044-1058 | ADR/ADD SP completes and writes only Rd; the PC form gives a word-aligned address |
| DataProcessing.StackOffset | CortexM4-CSharp/CPU.cs:1063 | the offset is a multiple of four, at most 508 |
| DataProcessing.StackAdjustmentsCancel | CortexM4-CSharp/CPU.cs:1060-1075 | ADD SP, #imm followed by the form with bit 7 flipped restores the machine exactly |
| Transfers.StoreRegistersEffect | CortexM4-CSharp/CPU.cs:152-159 | a run of PushReg calls changes only memory and, on completion, advances the address by four per selected register |
| Transfers.StoreRegistersKeepsBelow | CortexM4-CSharp/CPU.cs:152-159 | a run of PushReg calls whose frame lies inside the code array completes and leaves the bytes below its start alone |
| Transfers.StoreRegistersWrites | CortexM4-CSharp/CPU.cs:152-159 | a run inside the code array completes and leaves the register of the `before`-th selected slot at `address + 4*before` |
| Transfers.StoreRegistersWritesFirst | CortexM4-CSharp/CPU.cs:152-159 | the first selected register is at the starting address when the run ends: no later store overwrites it |
| Transfers.LoadRegistersFrame | CortexM4-CSharp/CPU.cs:160-167 | a run of PopReg calls changes only registers, and only listed ones |
| Transfers.LoadRegistersAdvance | CortexM4-CSharp/CPU.cs:160-167 | a completed run advances the address by four per selected register |
| Transfers.LoadRegistersReads | CortexM4-CSharp/CPU.cs:160-167 | the `before`-th selected register holds the word at `address + 4*before` |
| Transfers.LoadRegistersKeepMemory | CortexM4-CSharp/CPU.cs:160-167 | loading registers leaves memory unchanged |
| Transfers.LoadRegistersCompletes | CortexM4-CSharp/CPU.cs:160-167 | a run of PopReg calls whose frame lies inside the code array completes |
| Transfers.StoreThenLoadRestores | CortexM4-CSharp/CPU.cs:152-167 | PopReg over the frame PushReg has just written, with distinct registers, completes and gives every listed register back its stored value, changing nothing else |
| Transfers.LowSlotsPrefixCount | CortexM4-CSharp/CPU.cs:187-201 | the first `n` list slots select as many registers as the low `n` bits of the list have set, as InitCpuBitsSet counts them |
| Transfers.LowSlotsCount | CortexM4-CSharp/CPU.cs:1087 | the list selects `cpuBitsSet[i & 0xFF]` registers |
| Transfers.LowSlotsList | CortexM4-CSharp/CPU.cs:1091-1098 | the list transfers R`k` exactly when bit `k` is set |
| Transfers.LowSlotsLists | CortexM4-CSharp/CPU.cs:1091-1098 | the same, for every register at once |
| Transfers.ListsMeansSelectedSlot | CortexM4-CSharp/CPU.cs:152-167 | a run transfers `k` exactly when some selected slot carries `k` |
| Transfers.ModeBitIsR2 | CortexM4-CSharp/CPU.cs:1079 | the bit that selects POP over PUSH is the one that also selects R2 |
| Transfers.PushSlotsEffect | CortexM4-CSharp/CPU.cs:1083-1125 | PUSH changes only memory and SP; SP gets its new value only on completion |
| Transfers.PushListEffect | CortexM4-CSharp/CPU.cs:1083-1103 | PUSH {list} lowers SP by four per listed register on completion, and otherwise changes only memory |
| Transfers.PushListLrEffect | CortexM4-CSharp/CPU.cs:1104-1125 | PUSH {list, LR} lowers SP by four per register including LR, and otherwise changes only memory |
| Transfers.PushFillsFrame | CortexM4-CSharp/CPU.cs:1083-1125 | from an aligned SP, the stores end exactly at the old SP |
| Transfers.PushSlotsWrites | CortexM4-CSharp/CPU.cs:1083-1125 | a push on an aligned frame inside the code array completes, with selected slot `j` at the new SP plus four per selected slot ahead of it |
| Transfers.PushListWrites | CortexM4-CSharp/CPU.cs:1083-1103 | PUSH {list} from an aligned SP with room below it completes and stores listed R`k` at the new SP plus four per listed register below `k` |
| Transfers.PushListLrWrites | CortexM4-CSharp/CPU.cs:1104-1125 | PUSH {list, LR} stores LR just below the old SP and each listed R`k` as PUSH {list} does from the new SP |
| Transfers.PushDecoding | CortexM4-CSharp/CPU.cs:1077-1125 | with bit 2 clear, the handler is PUSH {list, LR} when bit 8 is set and PUSH {list} otherwise, with SP lowered by the table count |
| Transfers.PopDecoding | CortexM4-CSharp/CPU.cs:1077-1168 | with bit 2 set, the handler is POP {list, PC} when bit 8 is set and POP {list} otherwise, with SP raised by the table count |
| Transfers.PopSlotsFrame | CortexM4-CSharp/CPU.cs:1126-1145 | POP changes only listed registers and SP, and SP changes only on completion |
| Transfers.PopSlotsReads | CortexM4-CSharp/CPU.cs:1126-1145 | each popped register holds the word at its slot above the aligned SP |
| Transfers.PopListFrame | CortexM4-CSharp/CPU.cs:1126-1145 | POP {list} changes only listed registers and SP, which rises by four per register |
| Transfers.PopListReads | CortexM4-CSharp/CPU.cs:1126-1145 | R`k` holds the word at `SP + 4 * (registers listed below k)` |
| Transfers.PopPcFrame | CortexM4-CSharp/CPU.cs:1159-1163 | the PC pop changes only SP, R15, PC and the queue; a failed read throws and changes nothing |
| Transfers.PopPcEffect | CortexM4-CSharp/CPU.cs:1159-1163 | PC is the popped word with bit 0 cleared, R15 is PC+2 and SP its new value; on completion the queue holds PC |
| Transfers.PopSlotsPcFrame | CortexM4-CSharp/CPU.cs:1146-1168 | POP {list, PC} changes only listed registers, SP, R15, PC and the queue |
| Transfers.PopSlotsPcTarget | CortexM4-CSharp/CPU.cs:1159 | the new PC is the word just above the popped registers, with bit 0 cleared |
| Transfers.PopSlotsPcJumps | CortexM4-CSharp/CPU.cs:1159-1163 | on completion R15 is PC+2, SP is its new value, and the queue holds PC |
| Transfers.PopSlotsPcEffect | CortexM4-CSharp/CPU.cs:1146-1168 | the new PC, R15, SP and queue together, with SP raised by four per register plus four |
| Transfers.PopSlotsPcReads | CortexM4-CSharp/CPU.cs:1146-1158 | each popped low register holds the word at its slot |
| Transfers.PopListPcFrame | CortexM4-CSharp/CPU.cs:1146-1168 | POP {list, PC} for an instruction: only listed low registers, SP, R15, PC and the queue change |
| Transfers.PopListPcEffect | CortexM4-CSharp/CPU.cs:1146-1168 | POP {list, PC} for an instruction: the new PC, R15, SP and queue |
| Transfers.PopListPcReads | CortexM4-CSharp/CPU.cs:1146-1158 | POP {list, PC} reads each listed low register as POP {list} does |
| Transfers.StoreBlockEffect | CortexM4-CSharp/CPU.cs:1178-1197 | a block store changes only memory and the base register, which changes only on completion |
| Transfers.StoreMultipleEffect | CortexM4-CSharp/CPU.cs:1178-1197 | STMIA writes Rb + 4 * count (from the unaligned base) back to Rb on completion, and otherwise changes only memory |
| Transfers.StoreMultipleFootprint | CortexM4-CSharp/CPU.cs:1184-1194 | the stores start at the aligned base and cover four bytes per listed register |
| Transfers.StoreMultipleWrites | CortexM4-CSharp/CPU.cs:1178-1194 | STMIA from an aligned base with its block inside the code array completes and stores listed R`k` at `R[rb]` plus four per listed register below `k`, Rb with its value before the write-back |
| Transfers.LoadBlockFrame | CortexM4-CSharp/CPU.cs:1198-1217 | a block load changes only listed registers and Rb; with write-back, Rb is the aligned base plus four per register |
| Transfers.LoadBlockReads | CortexM4-CSharp/CPU.cs:1198-1217 | each loaded register holds the word at its slot from the aligned base |
| Transfers.LoadMultipleEffect | CortexM4-CSharp/CPU.cs:1198-1217 | LDMIA changes only listed registers and Rb; Rb gets the final address only when it is not in the list |
| Transfers.LoadMultipleReads | CortexM4-CSharp/CPU.cs:1198-1217 | LDMIA: R`k` holds the word at `base + 4 * (registers listed below k)` |
| Transfers.PushThenPopRestores | CortexM4-CSharp/CPU.cs:1083-1145 | popping the slots a push has just stored, on an aligned frame inside the code array, gives back every register the push started from except SP, and keeps the memory the push left |
| Transfers.StoreBlockThenLoadBlock | CortexM4-CSharp/CPU.cs:1178-1217 | LDMIA over the block STMIA has just stored, with Rb reset to its aligned base, gives back every register, except that a write-back leaves the address past the block in Rb |
| Transfers.StoreBlockReset | CortexM4-CSharp/CPU.cs:1178-1197 | resetting Rb after a completed block store leaves exactly the state the stores left |
| Transfers.LoadBlockOfStored | CortexM4-CSharp/CPU.cs:1198-1217 | the LDMIA loads over the block just stored give back the stored registers and, with write-back, the address past the block |
| Transfers.PushOfR2Pops | CortexM4-CSharp/CPU.cs:1079 | as written, PUSH {R0-R2} (0xB407) carries bit 2 and so runs POP {R0-R2}: it raises SP by twelve and writes no memory |
| Transfers.PopWithoutR2Pushes | CortexM4-CSharp/CPU.cs:1079 | as written, POP {R0, R1} (0xBC03) lacks bit 2 and so runs PUSH {R0, R1}: it lowers SP by eight and leaves R0 and R1 alone |
| Transfers.PcRelativeLoadEffect | CortexM4-CSharp/CPU.cs:325-330 | LDR Rd, [PC, #imm] reads a word-aligned address, writes only Rd, and Rd holds the word there |
| Transfers.RegisterOffsetFrame | CortexM4-CSharp/CPU.cs:899-936 | the two stores change only memory, and the two loads change only Rd |
| Transfers.Store32ThenLoad32 | CortexM4-CSharp/CPU.cs:906-926 | a word stored inside the code array and loaded back leaves the registers as they were |
| Transfers.RegisterOffsetStoreThenLoad | CortexM4-CSharp/CPU.cs:899-936 | STR Rd, [Rb, Ro] followed by the matching LDR completes and restores the registers |
| Transfers.SignExtendedFormat | CortexM4-CSharp/CPU.cs:938-975 | STRH changes only memory; the loads change only Rd; LDSB gives a byte and LDSH a halfword, both zero-extended, and LDSH equals LDRH |
| Transfers.ImmediateOffsetFrame | CortexM4-CSharp/CPU.cs:977-1006 | STR and STRB change only memory; LDR and LDRB change only Rd |
| Transfers.ImmediateOffsetReadsRegister | CortexM4-CSharp/CPU.cs:983-987 | as written, STR R0, [R1, #4] (0x6048, immediate field 1) stores at R1 + R1, not R1 + 4 |
| Transfers.ImmediateOffsetByteLoad | CortexM4-CSharp/CPU.cs:998-1002 | LDRB does add its five-bit immediate |
| Transfers.HalfwordImmediateOnlyStores | CortexM4-CSharp/CPU.cs:1008-1024 | both forms of the halfword-immediate format change only memory: the "LDRH" branch stores a byte |
| Transfers.SpRelativeStoreFrame | CortexM4-CSharp/CPU.cs:1030-1035 | the SP-relative store changes only memory |
| Transfers.SpRelativeLoadFrame | CortexM4-CSharp/CPU.cs:1036-1041 | the SP-relative load changes only Rd |
| Transfers.SpRelativeIgnoresStackPointer | CortexM4-CSharp/CPU.cs:1036-1041 | as written, `LDR R1, [SP, #0]` (0x9001) reads from R0, not from SP |
| Branches.SignedByte | CortexM4-CSharp/CPU.cs:1223 | `(sbyte)(i & 0xFF)` is in -128..127 and agrees with the low byte modulo 256 |
| Branches.TakenAgreesWithArchitecture | CortexM4-CSharp/CPU.cs:1227-1366 | conditions 1-13 match the architecture's condition table; BEQ departs from it exactly when C differs from Z |
| Branches.BranchIfEqualIgnoresZero | CortexM4-CSharp/CPU.cs:1227-1236 | with Z set and C clear, BEQ is not taken even though EQ holds |
| Branches.ConditionalOffsetRange | CortexM4-CSharp/CPU.cs:1223-1231 | the offset is even, in -256..254, and reaches both bounds |
| Branches.ConditionalBranchEffect | CortexM4-CSharp/CPU.cs:1220-1370 | conditions 14-15 throw and change nothing; a branch not taken changes nothing |
| Branches.ConditionalBranchTaken | CortexM4-CSharp/CPU.cs:1229-1235 | a taken branch jumps to R15 + 2*offset: PC, R15 and the queue change and nothing else |
| Branches.ConditionalBranchJumps | CortexM4-CSharp/CPU.cs:1229-1235 | a taken branch is the common jump to R15 + 2*offset |
| Branches.BranchOffsetIsSignExtended | CortexM4-CSharp/CPU.cs:1374-1378 | the offset is the 11-bit field times two, sign-extended: even, in -2048..2046, reaching both bounds |
| Branches.UnconditionalBranchEffect | CortexM4-CSharp/CPU.cs:1372-1385 | B always jumps to R15 + offset: PC, R15 and the queue change and nothing else |
| Branches.LinkBaseIsBackward | CortexM4-CSharp/CPU.cs:1389-1399 | as written, the `offset & 0xF000` test never holds, so the first half always treats its offset as negative: the link base lies 4 KiB to 8 MiB below R15 |
| Branches.LongBranchWithLinkEffect | CortexM4-CSharp/CPU.cs:1387-1412 | BL jumps to the link base with bit 0 cleared; only registers, PC and the queue change |
| Branches.LongBranchWithLinkLinks | CortexM4-CSharp/CPU.cs:1405-1409 | LR is `(R15 - 2) | 1` and R0..R13 are unchanged |
| Branches.LongBranchPrefetches | CortexM4-CSharp/CPU.cs:1387-1412 | BL is its register updates followed by Prefetch |
| Branches.LongBranchIgnoresHalfSelector | CortexM4-CSharp/CPU.cs:1389-1404 | a 16-bit instruction has no high half, so the H bit makes no difference |
| Execution.StepAfterAdvance | CortexM4-CSharp/CPU.cs:65-77 | a step is the queue advance followed by ExecuteOp of the old head, and stops if the fetch throws |
| Execution.CoherentFrame | CortexM4-CSharp/CPU.cs:65-77 | coherence (R15 is PC+2 and the queue holds PC) depends only on PC, R15, the queue and memory |
| Execution.AdvanceFrame | CortexM4-CSharp/CPU.cs:69-73 | the queue advance moves R15 into PC, adds two to R15, shifts the queue, and changes nothing else |
| Execution.AdvanceReads | CortexM4-CSharp/CPU.cs:73 | it fails exactly when the halfword at the new R15 cannot be read, and otherwise loads it into slot 1 |
| Execution.AdvanceFetchesAtPc | CortexM4-CSharp/CPU.cs:69-73 | in a coherent state, slot 0 is the halfword at PC and the advance moves PC by two |
| Execution.AdvanceKeepsCoherent | CortexM4-CSharp/CPU.cs:69-73 | a completed advance from a coherent state is coherent |
| Execution.ResetEffect | CortexM4-CSharp/CPU.cs:127-138 | Reset sets T, loads PC from address 4 and sets R15 to PC+2; it fails exactly when that read throws, and nothing else changes |
| Execution.PrefetchMakesCoherent | CortexM4-CSharp/CPU.cs:65 | after Reset, a completed Prefetch gives a coherent state |
| Execution.ShiftKeepsCoherent | CortexM4-CSharp/CPU.cs:377-425 | shifts by an immediate keep the state coherent |
| Execution.AddSubtractKeepsCoherent | CortexM4-CSharp/CPU.cs:427-443 | ADD/SUB keep the state coherent |
| Execution.ImmediateKeepsCoherent | CortexM4-CSharp/CPU.cs:445-499 | the immediate format keeps the state coherent |
| Execution.AluKeepsCoherent | CortexM4-CSharp/CPU.cs:501-712 | ALU operations keep the state coherent |
| Execution.ConditionalBranchKeepsCoherent | CortexM4-CSharp/CPU.cs:1220-1370 | a completed conditional branch leaves a coherent state |
| Execution.JumpKeepsCoherent | CortexM4-CSharp/CPU.cs:1231-1234 | a completed jump is coherent at its target |
| Execution.UnconditionalBranchKeepsCoherent | CortexM4-CSharp/CPU.cs:1372-1385 | a completed B leaves a coherent state |
| Execution.LongBranchKeepsCoherent | CortexM4-CSharp/CPU.cs:1387-1412 | a completed BL leaves a coherent state |
| Execution.DispatchMoveShiftedRegister | CortexM4-CSharp/CPU.cs:307-310 | ExecuteOp runs the shift handler on the instructions Decode sends it |
| Execution.DispatchAddSubtract | CortexM4-CSharp/CPU.cs:263-266 | ExecuteOp runs ADD/SUB on the instructions Decode sends it |
| Execution.DispatchMoveCompareAddSubtractImmediate | CortexM4-CSharp/CPU.cs:303-306 | ExecuteOp runs the immediate handler on the instructions Decode sends it |
| Execution.DispatchAluOperations | CortexM4-CSharp/CPU.cs:255-258 | ExecuteOp runs the ALU handler on the instructions Decode sends it |
| Execution.DispatchConditionalBranch | CortexM4-CSharp/CPU.cs:295-298 | ExecuteOp runs the conditional branch on the instructions Decode sends it |
| Execution.DispatchUnconditionalBranch | CortexM4-CSharp/CPU.cs:271-274 | ExecuteOp runs B on the instructions Decode sends it |
| Execution.DispatchLongBranchWithLink | CortexM4-CSharp/CPU.cs:299-302 | ExecuteOp runs BL on the instructions Decode sends it |
| Execution.DispatchHiRegisterOperationsBranchExchange | CortexM4-CSharp/CPU.cs:259-262 | ExecuteOp runs the hi-register handler on the instructions Decode sends it |
| Execution.DispatchLoadAddress | CortexM4-CSharp/CPU.cs:287-290 | ExecuteOp runs ADD Rd, PC/SP on the instructions Decode sends it |
| Execution.DispatchAddOffsetToStackPointer | CortexM4-CSharp/CPU.cs:239-242 | ExecuteOp runs ADD SP, #imm on the instructions Decode sends it |
| Execution.DispatchPcRelativeLoad | CortexM4-CSharp/CPU.cs:267-270 | ExecuteOp runs the PC-relative load on the instructions Decode sends it |
| Execution.DispatchLoadStoreWithRegisterOffset | CortexM4-CSharp/CPU.cs:243-246 | ExecuteOp runs the register-offset handler on the instructions Decode sends it |
| Execution.DispatchLoadStoreSignExtendedByteHalfword | CortexM4-CSharp/CPU.cs:247-250 | ExecuteOp runs the sign-extended handler on the instructions Decode sends it |
| Execution.DispatchLoadStoreWithImmediateOffset | CortexM4-CSharp/CPU.cs:311-314 | ExecuteOp runs the immediate-offset handler on the instructions Decode sends it |
| Execution.DispatchSpRelativeLoadStore | CortexM4-CSharp/CPU.cs:283-286 | ExecuteOp runs the SP-relative handler on the instructions Decode sends it |
| Execution.DispatchPushPopRegisters | CortexM4-CSharp/CPU.cs:251-254 | ExecuteOp runs PUSH/POP on the instructions Decode sends it |
| Execution.DispatchMultipleLoadStore | CortexM4-CSharp/CPU.cs:291-294 | ExecuteOp runs STMIA/LDMIA on the instructions Decode sends it |
| Execution.OneRegisterKeepsCoherent | CortexM4-CSharp/CPU.cs:65-77 | changing one register other than R15, and the flags, keeps a state coherent |
| Execution.PcRelativeLoadKeepsCoherent | CortexM4-CSharp/CPU.cs:325-330 | the PC-relative load keeps the state coherent |
| Execution.RegisterOffsetLoadKeepsCoherent | CortexM4-CSharp/CPU.cs:899-936 | LDR and LDRB by register keep the state coherent |
| Execution.SignExtendedLoadKeepsCoherent | CortexM4-CSharp/CPU.cs:938-975 | LDSB, LDRH and LDSH keep the state coherent |
| Execution.ImmediateOffsetLoadKeepsCoherent | CortexM4-CSharp/CPU.cs:977-1006 | LDR and LDRB with an immediate offset keep the state coherent |
| Execution.SpRelativeLoadKeepsCoherent | CortexM4-CSharp/CPU.cs:1026-1041 | the SP-relative load keeps the state coherent |
| Execution.PopKeepsCoherent | CortexM4-CSharp/CPU.cs:1077-1168 | a completed POP, with or without PC, leaves a coherent state |
| Execution.PopPcKeepsCoherent | CortexM4-CSharp/CPU.cs:1146-1168 | a completed POP {list, PC} is coherent at the popped address |
| Execution.PopListKeepsCoherent | CortexM4-CSharp/CPU.cs:1126-1145 | POP {list} keeps the state coherent |
| Execution.LoadMultipleKeepsCoherent | CortexM4-CSharp/CPU.cs:1198-1217 | LDMIA keeps the state coherent |
| Execution.LoadAddressKeepsCoherent | CortexM4-CSharp/CPU.cs:1044-1058 | ADD Rd, PC/SP keeps the state coherent |
| Execution.StackAdjustmentKeepsCoherent | CortexM4-CSharp/CPU.cs:1060-1075 | ADD SP, #imm keeps the state coherent |
| Execution.HighRegisterKeepsCoherent | CortexM4-CSharp/CPU.cs:714-838 | a completed hi-register ADD, CMP or MOV leaves a coherent state, a write to R15 included |
| Execution.HighRegisterWriteKeepsCoherent | CortexM4-CSharp/CPU.cs:725-838 | a completed hi-register ADD or MOV leaves a coherent state |
| Execution.AfterHighWriteKeepsCoherent | CortexM4-CSharp/CPU.cs:725-838 | a high-register write below R15 keeps coherence, and one into R15 jumps coherently |
| Execution.BranchExchangeKeepsCoherent | CortexM4-CSharp/CPU.cs:839-887 | a completed BX or BLX leaves a coherent state |
| Execution.BranchExchangeJumps | CortexM4-CSharp/CPU.cs:839-863 | a completed branch-exchange is coherent at its target |
| Execution.ExecuteKeepsCoherent | CortexM4-CSharp/CPU.cs:209-319 | every instruction that writes no memory (all but the stores, the halfword-immediate format, PUSH and STMIA) keeps the state coherent when it completes |
| Execution.DataOrBranchKeepsCoherent | CortexM4-CSharp/CPU.cs:255-310 | the shift, add/subtract, immediate and ALU formats and the three branches keep the state coherent when they complete |
| Execution.RegisterFormatKeepsCoherent | CortexM4-CSharp/CPU.cs:239-290 | the hi-register format, ADD Rd, PC/SP, ADD SP and the PC-relative load keep the state coherent when they complete |
| Execution.LoadKeepsCoherent | CortexM4-CSharp/CPU.cs:243-314 | every load keeps the state coherent when it completes |
| Execution.OffsetLoadKeepsCoherent | CortexM4-CSharp/CPU.cs:243-250 | the register-, sign-extended- and immediate-offset loads keep the state coherent |
| Execution.StackOrListLoadKeepsCoherent | CortexM4-CSharp/CPU.cs:251-294 | the SP-relative load, POP and LDMIA keep the state coherent when they complete |
| Execution.StepKeepsCoherent | CortexM4-CSharp/CPU.cs:67-77 | a completed loop iteration whose instruction writes no memory leaves a coherent state coherent |
| Execution.IterateKeeps | CortexM4-CSharp/CPU.cs:67-80 | an invariant that each allowed iteration keeps holds at the end of every completed run of allowed iterations |
| Execution.StepsKeepCoherent | CortexM4-CSharp/CPU.cs:67-80 | a run from a coherent state whose instructions write no memory ends coherent, unless it throws |
| Execution.IterateAdd | CortexM4-CSharp/CPU.cs:67-80 | `a + b` iterations are `a` iterations followed by `b` more, unless the first `a` throw |
| Execution.StepsFirst | CortexM4-CSharp/CPU.cs:67-80 | `k + 1` iterations are one step and then `k` more, unless the step throws |
| Execution.StepsThree | CortexM4-CSharp/CPU.cs:67-80 | three iterations that complete end where the third leaves the state |
| Cpu.ZeroRegion | CortexM4-CSharp/CPU.cs:39 | `new byte[256]`: a fresh all-zero array |
| Cpu.ResetOfBlank | CortexM4-CSharp/CPU.cs:37-44 | Reset from the all-zero state completes with T set, PC 0 and R15 2 |
| Cpu.CPU.constructor | CortexM4-CSharp/CPU.cs:18-44 | fresh register file, two 256-byte regions and no peripherals; the cpuBitsSet table is filled; the state is Reset of the zero state |
| Cpu.CPU.Reset | CortexM4-CSharp/CPU.cs:127-138 | the new state and outcome are `Execution.Reset` of the old state |
| Cpu.CPU.Prefetch | CortexM4-CSharp/CPU.cs:140-144 | the new state and outcome are `Machines.Prefetch` of the old state |
| Cpu.CPU.PrefetchNext | CortexM4-CSharp/CPU.cs:145-148 | the new state and outcome are `Machines.PrefetchNext` of the old state |
| Cpu.CPU.PushReg | CortexM4-CSharp/CPU.cs:152-159 | state, outcome and the `ref address` are one step of `Transfers.StoreRegisters` |
| Cpu.CPU.PopReg | CortexM4-CSharp/CPU.cs:160-167 | state, outcome and the `ref address` are one step of `Transfers.LoadRegisters` |
| Cpu.CPU.InitCpuBitsSet | CortexM4-CSharp/CPU.cs:187-201 | entry `i` of the table is the number of bits set among the low eight bits of `i`, for all 256 entries |
| Cpu.CPU.ExecuteOp | CortexM4-CSharp/CPU.cs:209-319 | the new state and outcome are `Execution.Execute` of the old state and the instruction |
| Cpu.CPU.Advance | CortexM4-CSharp/CPU.cs:67-73 | the queue advance of one loop iteration, as `Execution.Advance` |
| Cpu.CPU.Step | CortexM4-CSharp/CPU.cs:67-77 | one loop iteration, as `Execution.Step` |
| Cpu.CPU.Run | CortexM4-CSharp/CPU.cs:63-82 | Prefetch then `n` iterations, as `Execution.Run`; a thrown exception ends the run |
| Scenario.ImageWritten | CortexM4-CSharp/Program.cs:14-23 | the driver's four writes into a 256-byte region succeed and leave the image in memory |
| Scenario.ProgramDecodes | CortexM4-CSharp/Program.cs:16-23 | both MOVs go to the move/compare/add/subtract-immediate handler and the ADD to the add/subtract handler |
| Scenario.MoveTwelveToR0 | CortexM4-CSharp/Program.cs:16-17 | `MOV R0, #12` writes 12 to R0, clears N and Z and keeps C and V |
| Scenario.MoveOneToR1 | CortexM4-CSharp/Program.cs:19-20 | `MOV R1, #1` writes 1 to R1 |
| Scenario.AddR1ToR0 | CortexM4-CSharp/Program.cs:22-23 | `ADD R0, R0, R1` on 12 and 1 gives 13 and clears every flag |
| Scenario.ProgramStarts | CortexM4-CSharp/Program.cs:25 | Reset loads PC 0x58, and the first Prefetch queues the first two instructions |
| Scenario.ProgramSteps | CortexM4-CSharp/Program.cs:26 | three loop iterations from there leave R0 = 13, R1 = 1, PC 0x5E and the flags clear |
| Scenario.ProgramAddsTwelveAndOne | CortexM4-CSharp/Program.cs:12-26 | with the image loaded, Reset and a three-instruction run end with R0 = 13, R1 = 1 and the flags clear |

## Left out

- `Run()` (CPU.cs:47-61) loops while `holdState` is false, and nothing ever sets it, so it never terminates. `Execution.Steps` is its `n`-iteration prefix.
- `VerboseRun` and `Print` (CPU.cs:84-123) only add console output to `Run(n)`. Console I/O is not modelled.
- The `CPUMode` enum and the local `mode` in `Reset` are never used.
- `ThumbLdmReg` and `ThumbStmReg` (CPU.cs:169-184) are the same as `PopReg` and `PushReg`. `MultipleLoadStore` is modelled with the same `LoadRegisters`/`StoreRegisters` functions.
- `PcRelativeLoad` (CPU.cs:893-897) duplicates `PCRelativeLoad`, and `ExecuteOp` never calls it.
- The handlers that `ExecuteOp` dispatches but that only throw (CPS, WFI/WFE, SEV, SVC, BKPT and the software interrupt that SVC shadows) are modelled as one `NotImplemented` fault each. `DataMemSyncBarier`, `InstructionSyncBarier` and `SignZeroExtendByteHalfword` also only throw, and `ExecuteOp` never calls them.
- The abstract read and write methods of `Peripheral` have no body, and the MMU never calls them. Peripherals are modelled only by their range checks.
- Exception types and message strings are reduced to a `Fault` value. The name in the conflict message is not modelled.
- `BitConverter` follows the host's endianness. The model fixes little-endian byte order.
- `Cpu.CPU.ExecuteOp`: each handler is computed as a value and then stored into the fields and arrays, instead of being applied write by write. The final state and the partial state on a throw are modelled; the order of the intermediate writes is not.
- `Cpu.CPU.Run`: it takes a `nat`, while the source's count is a `uint`, so counts of 2^32 and above have no source counterpart.
- DataProcessing.ShiftLeftByRegister: its own contract states only the frame (Rd and C change); the values are in `DataProcessing.ShiftLeftByRegisterValue`.
- DataProcessing.ShiftRightByRegister: as for LSL; the values are in `DataProcessing.ShiftRightByRegisterValue`.
- DataProcessing.ArithmeticShiftByRegister: as for LSL; the values are in `DataProcessing.ArithmeticShiftByRegisterValue`.
- Transfers.PushSlotsEffect: states the frame only. The stored words are in `Transfers.PushSlotsWrites`, which needs an aligned frame inside the code array. For an unaligned SP the stores start at SP rounded down, and a frame that reaches past the code array throws partway; neither case has a contents lemma.
- Transfers.PushListEffect: the frame only; the stored words, on an aligned stack inside the code array, are in `Transfers.PushListWrites`.
- Transfers.PushListLrEffect: the frame only; the stored words, on an aligned stack inside the code array, are in `Transfers.PushListLrWrites`.
- Transfers.StoreBlockEffect: the frame only; the stored words are in `Transfers.StoreRegistersWrites`, and the round trip is `Transfers.StoreBlockThenLoadBlock`. Both need an aligned base and a block inside the code array.
- Transfers.StoreMultipleEffect: the frame only; the stored words, from an aligned base with the block inside the code array, are in `Transfers.StoreMultipleWrites`.
- Execution.ExecuteKeepsCoherent: not stated for the stores. A store may overwrite the halfword the queue holds at PC, so coherence can fail after it.
- `Scenario.ProgramAddsTwelveAndOne`: covers the first three of the driver's 1000 iterations (Program.cs:26). The zero halfwords that follow execute as `LSL R0, R0, #0`.
