/** The image CortexM4-CSharp/Program.cs:12-25 builds: the word 0x58 at
    PC_INIT_ADDRESS and, from 0x58 on, `MOV R0, #12`, `MOV R1, #1` and
    `ADD R0, R0, R1`. After Reset and the Prefetch that starts Run, three
    iterations of the run loop leave 13 in R0 and every flag clear. */
module Scenario {
  import opened Words
  import opened Faults
  import opened Machines
  import opened Decoding
  import Memory
  import DataProcessing
  import Execution

  const CODE_INIT_ADDRESS: Word := 0x58
  const MOV_R0_12: Half := 0x200C
  const MOV_R1_1: Half := 0x2101
  const ADD_R0_R0_R1: Half := 0x1840

  /** The four `mmu.Write*` calls of the driver, in order. */
  function WriteImage(mem: Memory.Mem): Result<Memory.Mem> {
    match Memory.Write32(mem, Execution.PC_INIT_ADDRESS, CODE_INIT_ADDRESS)
    case Err(f) => Err(f)
    case Ok(m1) =>
      match Memory.Write16(m1, CODE_INIT_ADDRESS, MOV_R0_12)
      case Err(f) => Err(f)
      case Ok(m2) =>
        match Memory.Write16(m2, CODE_INIT_ADDRESS + 2, MOV_R1_1)
        case Err(f) => Err(f)
        case Ok(m3) => Memory.Write16(m3, CODE_INIT_ADDRESS + 4, ADD_R0_R0_R1)
  }

  /** Memory holds the driver's image. */
  predicate ImageLoaded(mem: Memory.Mem) {
    && Memory.Read32(mem, Execution.PC_INIT_ADDRESS) == Ok(CODE_INIT_ADDRESS)
    && Memory.Read16(mem, CODE_INIT_ADDRESS) == Ok(MOV_R0_12)
    && Memory.Read16(mem, CODE_INIT_ADDRESS + 2) == Ok(MOV_R1_1)
    && Memory.Read16(mem, CODE_INIT_ADDRESS + 4) == Ok(ADD_R0_R0_R1)
  }

  /** Two memories whose code arrays agree on the bytes of an access read alike. */
  lemma ReadsAgree(m: Memory.Mem, m': Memory.Mem, a: Word, size: nat)
    requires a <= Memory.CODE_END && a + size <= |m.code| == |m'.code|
    requires forall k :: a <= k < a + size ==> m.code[k] == m'.code[k]
    ensures Memory.Fetch(m, a, size) == Memory.Fetch(m', a, size)
  {
    assert m.code[a..a + size] == m'.code[a..a + size];
  }

  /** On either 256-byte memory of the CPU the driver's writes all succeed
      and leave the image in place: no later write overlaps an earlier one. */
  lemma ImageWritten(mem: CpuMemory)
    ensures WriteImage(mem).Ok? && ImageLoaded(WriteImage(mem).value)
    ensures |WriteImage(mem).value.code| == REGION_SIZE
  {
    Memory.Write32ThenRead32(mem, 4, 0x58);
    var m1 := Memory.Write32(mem, 4, 0x58).value;
    Memory.Write16ThenRead16(m1, 0x58, MOV_R0_12);
    var m2 := Memory.Write16(m1, 0x58, MOV_R0_12).value;
    Memory.Write16ThenRead16(m2, 0x5A, MOV_R1_1);
    var m3 := Memory.Write16(m2, 0x5A, MOV_R1_1).value;
    Memory.Write16ThenRead16(m3, 0x5C, ADD_R0_R0_R1);
    var m4 := Memory.Write16(m3, 0x5C, ADD_R0_R0_R1).value;
    assert WriteImage(mem) == Ok(m4);
    ReadsAgree(m1, m4, 4, 4);
    ReadsAgree(m2, m4, 0x58, 2);
    ReadsAgree(m3, m4, 0x5A, 2);
  }

  /** One iteration of the run loop when the halfword at R15 + 2 reads as
      `next`: the queue moves up and takes `next`, PC gets R15, R15 moves two
      on, and the first queued instruction `i` runs on that state. */
  lemma StepRuns(s: Machine, next: Half, i: bv16)
    requires Memory.Read16(s.mem, Wrap(s.r[PC_INDEX] as int + 2)) == Ok(next)
    requires s.prefetch[0] == i as int
    ensures Execution.Step(s) == Execution.Execute(Advanced(s, next), i)
  {
    var a := Execution.Advance(s);
    Execution.AdvanceFrame(s);
    Execution.AdvanceReads(s);
    assert a.state.r == s.r[PC_INDEX := Wrap(s.r[PC_INDEX] as int + 2)];
    assert a.state.prefetch == [s.prefetch[1], next];
    assert a == Done(Advanced(s, next));
    HalfBits(s.prefetch[0], i);
    Execution.StepAfterAdvance(s, a);
  }

  /** The halfword `x`, read as the instruction `i`. */
  lemma HalfBits(x: Half, i: bv16)
    requires x == i as int
    ensures x as bv16 == i
  {
  }

  /** The state a completed Advance leaves when it reads `next`. */
  function Advanced(s: Machine, next: Half): Machine {
    s.(r := s.r[PC_INDEX := Wrap(s.r[PC_INDEX] as int + 2)], pc := s.r[PC_INDEX], prefetch := [s.prefetch[1], next])
  }

  /** MOV R0, #12 writes 12 to R0, clears N and Z and keeps C and V. */
  lemma MoveTwelveToR0(a: Machine)
    ensures DataProcessing.MoveCompareAddSubtractImmediate(a, 0x200C) == Done(a.(r := a.r[0 := 12], n := false, z := false))
  {
    assert Bits2(0x200C, 11) == 0 && Bits3(0x200C, 8) == 0 && Bits8(0x200C) == 12;
  }

  /** MOV R1, #1 writes 1 to R1, clears N and Z and keeps C and V. */
  lemma MoveOneToR1(a: Machine)
    ensures DataProcessing.MoveCompareAddSubtractImmediate(a, 0x2101) == Done(a.(r := a.r[1 := 1], n := false, z := false))
  {
    assert Bits2(0x2101, 11) == 0 && Bits3(0x2101, 8) == 1 && Bits8(0x2101) == 1;
  }

  /** ADD R0, R0, R1 with R0 = 12 and R1 = 1 writes 13 to R0 and clears all
      four flags: no carry out of bit 31 and no signed overflow. */
  lemma AddR1ToR0(a: Machine)
    requires a.r[0] == 12 && a.r[1] == 1
    ensures DataProcessing.AddSubtract(a, 0x1840) == Done(a.(r := a.r[0 := 13], n := false, z := false, c := false, v := false))
  {
    assert Bits3(0x1840, 0) == 0 && Bits3(0x1840, 3) == 0 && Bits3(0x1840, 6) == 1;
    assert !Flag(0x1840, 0x400) && !Flag(0x1840, 0x200);
  }

  /** The three instructions decode to the handlers that run them. */
  lemma ProgramDecodes()
    ensures Decode(0x200C) == MoveCompareAddSubtractImmediate
    ensures Decode(0x2101) == MoveCompareAddSubtractImmediate
    ensures Decode(0x1840) == AddSubtract
  {
  }

  /** MOV R0, #12 at 0x58. */
  lemma FirstStep(s: Machine)
    requires s.pc == 0x58 && s.r[PC_INDEX] == 0x5A && s.prefetch == [MOV_R0_12, MOV_R1_1]
    requires Memory.Read16(s.mem, 0x5C) == Ok(ADD_R0_R0_R1)
    ensures Execution.Step(s) == Done(Advanced(s, ADD_R0_R0_R1).(r := Advanced(s, ADD_R0_R0_R1).r[0 := 12], n := false, z := false))
  {
    StepRuns(s, ADD_R0_R0_R1, 0x200C);
    ProgramDecodes();
    Execution.DispatchMoveCompareAddSubtractImmediate(Advanced(s, ADD_R0_R0_R1), 0x200C);
    MoveTwelveToR0(Advanced(s, ADD_R0_R0_R1));
  }

  /** MOV R1, #1 at 0x5A. */
  lemma SecondStep(s: Machine, next: Half)
    requires s.pc == 0x5A && s.r[PC_INDEX] == 0x5C && s.prefetch == [MOV_R1_1, ADD_R0_R0_R1]
    requires Memory.Read16(s.mem, 0x5E) == Ok(next)
    ensures Execution.Step(s) == Done(Advanced(s, next).(r := Advanced(s, next).r[1 := 1], n := false, z := false))
  {
    StepRuns(s, next, 0x2101);
    ProgramDecodes();
    Execution.DispatchMoveCompareAddSubtractImmediate(Advanced(s, next), 0x2101);
    MoveOneToR1(Advanced(s, next));
  }

  /** ADD R0, R0, R1 at 0x5C. */
  lemma ThirdStep(s: Machine, next: Half)
    requires s.pc == 0x5C && s.r[PC_INDEX] == 0x5E && s.prefetch[0] == ADD_R0_R0_R1
    requires s.r[0] == 12 && s.r[1] == 1
    requires Memory.Read16(s.mem, 0x60) == Ok(next)
    ensures Execution.Step(s) ==
      Done(Advanced(s, next).(r := Advanced(s, next).r[0 := 13], n := false, z := false, c := false, v := false))
  {
    StepRuns(s, next, 0x1840);
    ProgramDecodes();
    Execution.DispatchAddSubtract(Advanced(s, next), 0x1840);
    AddR1ToR0(Advanced(s, next));
  }

  /** Reset reads PC = 0x58 from the image, and the Prefetch that starts
      Run queues the first two instructions. */
  lemma ProgramStarts(m: Machine)
    requires ImageLoaded(m.mem)
    ensures Execution.Reset(m).outcome.Completed?
    ensures var p := Prefetch(Execution.Reset(m).state);
      && p.outcome.Completed? && p.state.mem == m.mem
      && p.state.pc == 0x58 && p.state.r[PC_INDEX] == 0x5A && p.state.prefetch == [MOV_R0_12, MOV_R1_1]
  {
    Execution.ResetEffect(m);
    var s0 := Execution.Reset(m).state;
    assert s0.pc == 0x58 && s0.r[PC_INDEX] == 0x5A && s0.mem == m.mem;
    PrefetchFillsQueue(s0);
    PrefetchFailsOnRead(s0);
  }

  /** Three iterations of the run loop from there. */
  lemma ProgramSteps(s1: Machine)
    requires ImageLoaded(s1.mem)
    requires s1.pc == 0x58 && s1.r[PC_INDEX] == 0x5A && s1.prefetch == [MOV_R0_12, MOV_R1_1]
    ensures var e := Execution.Steps(s1, 3);
      && e.outcome.Completed?
      && e.state.r[0] == 13 && e.state.r[1] == 1 && e.state.pc == 0x5E
      && !e.state.n && !e.state.z && !e.state.c && !e.state.v
  {
    Memory.AccessFailsPastArrayEnd(s1.mem, 0x5E, 0);
    Memory.AccessFailsPastArrayEnd(s1.mem, 0x60, 0);
    var next := Memory.Read16(s1.mem, 0x5E).value;
    var last := Memory.Read16(s1.mem, 0x60).value;
    FirstStep(s1);
    var s2 := Execution.Step(s1).state;
    SecondStep(s2, next);
    var s3 := Execution.Step(s2).state;
    ThirdStep(s3, last);
    var s4 := Execution.Step(s3).state;
    Execution.StepsThree(s1, s2, s3, s4);
  }

  /** The driver's program: from any machine whose memory holds the image,
      Reset completes and Run(3) completes with R0 = 12 + 1 = 13, R1 = 1,
      N, Z, C and V clear, and PC at 0x5E, the halfword after the last
      instruction executed (the ADD at 0x5C). */
  lemma ProgramAddsTwelveAndOne(m: Machine)
    requires ImageLoaded(m.mem)
    ensures Execution.Reset(m).outcome.Completed?
    ensures var e := Execution.Run(Execution.Reset(m).state, 3);
      && e.outcome.Completed?
      && e.state.r[0] == 13 && e.state.r[1] == 1 && e.state.pc == 0x5E
      && !e.state.n && !e.state.z && !e.state.c && !e.state.v
  {
    ProgramStarts(m);
    var p := Prefetch(Execution.Reset(m).state);
    ProgramSteps(p.state);
  }
}
