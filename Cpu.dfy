/** The CPU object (CortexM4-CSharp/CPU.cs:7-208): the register file and the
    MMU it owns, the bit-count table and `instrBase`, updated in place. Each
    method is proved against the value-level function of modules Machines
    and Execution that describes it, through `Abs()`, the machine state the
    object's fields and arrays hold. */
module Cpu {
  import opened Words
  import opened Faults
  import opened Machines
  import Memory
  import Transfers
  import Execution
  import opened RegisterFile
  import opened Mmu

  /** The state of a CPU whose fields all hold zero. */
  function Blank(): Machine {
    Machine(seq(16, _ => 0), 0, 0, false, false, false, false, false, [0, 0],
      Memory.Mem(seq(REGION_SIZE, _ => 0), seq(REGION_SIZE, _ => 0)), 0)
  }

  /** `new byte[256]`: one zeroed region. */
  method ZeroRegion() returns (a: array<Byte>)
    ensures fresh(a) && a[..] == seq(REGION_SIZE, _ => 0)
  {
    a := new Byte[REGION_SIZE](_ => 0);
    assert a[..] == seq(REGION_SIZE, _ => 0);
  }

  class CPU {
    /** `Run()` loops until this is set; nothing in the core sets it. */
    var holdState: bool
    const mmu: MMU
    const registers: Registers
    /** `cpuBitsSet[x]`: the number of bits set in the byte `x`. */
    const cpuBitsSet: array<int>
    var instrBase: int

    /** The shapes the constructor gives the arrays; none of them changes. */
    predicate Valid() {
      && registers.Valid()
      && mmu.Valid()
      && mmu.codeRegion.Length == REGION_SIZE
      && mmu.sramRegion.Length == REGION_SIZE
      && cpuBitsSet.Length == 256
    }

    /** `InitCpuBitsSet` has filled the table. */
    predicate TableFilled()
      reads cpuBitsSet
    {
      cpuBitsSet.Length == 256 &&
      forall x :: 0 <= x < 256 ==> cpuBitsSet[x] == Transfers.BitCount(x as bv16, 8)
    }

    /** The machine state the object holds. */
    function Abs(): Machine
      requires Valid()
      reads this, registers, registers.R, registers.PrefetchVal, mmu.codeRegion, mmu.sramRegion
    {
      Machine(registers.R[..], registers.PC, registers.SP,
        registers.N, registers.Z, registers.C, registers.V, registers.T,
        registers.PrefetchVal[..], mmu.Contents(), instrBase)
    }

    /** `new CPU()`: a zeroed register file, two zeroed 256-byte regions,
        then `Reset()` (which cannot fail on zeroed memory: PC becomes 0 and
        R15 2) and `InitCpuBitsSet()`. */
    constructor()
      ensures Valid() && TableFilled()
      ensures fresh(registers) && fresh(registers.R) && fresh(registers.PrefetchVal)
      ensures fresh(mmu) && fresh(mmu.codeRegion) && fresh(mmu.sramRegion) && fresh(cpuBitsSet)
      ensures Execution.Reset(Blank()) == Done(Abs())
      ensures !holdState && mmu.peripherals == []
    {
      holdState := false;
      registers := new Registers();
      cpuBitsSet := new int[256](_ => 0);
      instrBase := 0;
      var code := ZeroRegion();
      var sram := ZeroRegion();
      mmu := new MMU(code, sram);
      new;
      assert Abs() == Blank();
      ResetOfBlank();
      var o := Reset();
      InitCpuBitsSet();
    }

    /** `Reset()`, against Execution.Reset. */
    method Reset() returns (o: Outcome)
      requires Valid()
      modifies registers, registers.R
      ensures Exec(Abs(), o) == Execution.Reset(old(Abs()))
    {
      registers.T := true;
      match mmu.Read32(Execution.PC_INIT_ADDRESS)
      case Err(f) =>
        o := Failed(f);
      case Ok(pc) =>
        registers.PC := pc;
        registers.R[PC_INDEX] := Wrap(registers.PC as int + 2);
        o := Completed;
    }

    /** `Prefetch()`, against Machines.Prefetch. */
    method Prefetch() returns (o: Outcome)
      requires Valid()
      modifies registers.PrefetchVal
      ensures Exec(Abs(), o) == Machines.Prefetch(old(Abs()))
    {
      match mmu.Read16(registers.PC)
      case Err(f) =>
        return Failed(f);
      case Ok(h0) =>
        registers.PrefetchVal[0] := h0;
      match mmu.Read16(Wrap(registers.PC as int + 2))
      case Err(f) =>
        o := Failed(f);
      case Ok(h1) =>
        registers.PrefetchVal[1] := h1;
        o := Completed;
    }

    /** `PrefetchNext()`, against Machines.PrefetchNext. */
    method PrefetchNext() returns (o: Outcome)
      requires Valid()
      modifies registers.PrefetchVal
      ensures Exec(Abs(), o) == Machines.PrefetchNext(old(Abs()))
    {
      match mmu.Read16(Wrap(registers.PC as int + 2))
      case Err(f) =>
        o := Failed(f);
      case Ok(h1) =>
        registers.PrefetchVal[1] := h1;
        o := Completed;
    }

    /** `PushReg(instruction, ref address, val, reg)`: one slot of the
        StoreRegisters walk. `ThumbStmReg` is the same statements. */
    method PushReg(instruction: bv16, address: Word, val: bv16, reg: RegIndex) returns (o: Outcome, address': Word)
      requires Valid()
      modifies mmu.codeRegion, mmu.sramRegion
      ensures Transfers.Transfer(Exec(Abs(), o), address') ==
        Transfers.StoreRegisters(old(Abs()), [Transfers.Slot(instruction & val != 0, reg)], address)
    {
      address' := address;
      o := Completed;
      if instruction & val != 0 {
        o := mmu.Write32(address, registers.R[reg]);
        if o.Failed? {
          return;
        }
        address' := Wrap(address as int + 4);
      }
    }

    /** `PopReg(instr, ref address, val, reg)`: one slot of the
        LoadRegisters walk. `ThumbLdmReg` is the same statements. */
    method PopReg(instr: bv16, address: Word, val: bv16, reg: RegIndex) returns (o: Outcome, address': Word)
      requires Valid()
      modifies registers.R
      ensures Transfers.Transfer(Exec(Abs(), o), address') ==
        Transfers.LoadRegisters(old(Abs()), [Transfers.Slot(instr & val != 0, reg)], address)
    {
      address' := address;
      o := Completed;
      if instr & val != 0 {
        match mmu.Read32(address)
        case Err(f) =>
          return Failed(f), address;
        case Ok(value) =>
          registers.R[reg] := value;
          address' := Wrap(address as int + 4);
      }
    }

    /** `InitCpuBitsSet()`: entry `i` counts the `j < 8` with
        `(i & (1 << j)) != 0`. */
    method InitCpuBitsSet()
      requires Valid()
      modifies cpuBitsSet
      ensures TableFilled()
    {
      for i := 0 to 256
        invariant forall x :: 0 <= x < i ==> cpuBitsSet[x] == Transfers.BitCount(x as bv16, 8)
      {
        var count := 0;
        for j := 0 to 8
          invariant count == Transfers.BitCount(i as bv16, j)
        {
          if Transfers.HasBit(i as bv16, j) {
            count := count + 1;
          }
        }
        cpuBitsSet[i] := count;
      }
    }

    /** Puts the state `m` into the fields and arrays. */
    method Store(m: Machine)
      requires Valid()
      modifies this, registers, registers.R, registers.PrefetchVal, mmu.codeRegion, mmu.sramRegion
      ensures Abs() == m
    {
      StoreRegisterFile(m);
      StoreMemory(m.mem);
      instrBase := m.instrBase;
    }

    /** Puts the registers, flags and queue of `m` into the register file. */
    method StoreRegisterFile(m: Machine)
      requires Valid()
      modifies registers, registers.R, registers.PrefetchVal
      ensures registers.R[..] == m.r && registers.PrefetchVal[..] == m.prefetch
      ensures registers.PC == m.pc && registers.SP == m.sp && registers.T == m.t
      ensures registers.N == m.n && registers.Z == m.z && registers.C == m.c && registers.V == m.v
    {
      forall k | 0 <= k < 16 {
        registers.R[k] := m.r[k];
      }
      registers.PC := m.pc;
      registers.SP := m.sp;
      registers.N := m.n;
      registers.Z := m.z;
      registers.C := m.c;
      registers.V := m.v;
      registers.T := m.t;
      registers.PrefetchVal[0] := m.prefetch[0];
      registers.PrefetchVal[1] := m.prefetch[1];
      assert registers.R[..] == m.r;
      assert registers.PrefetchVal[..] == m.prefetch;
    }

    /** Puts the contents `mem` into the two regions. */
    method StoreMemory(mem: CpuMemory)
      requires Valid()
      modifies mmu.codeRegion, mmu.sramRegion
      ensures mmu.Contents() == mem
    {
      forall k | 0 <= k < REGION_SIZE {
        mmu.codeRegion[k] := mem.code[k];
      }
      forall k | 0 <= k < REGION_SIZE {
        mmu.sramRegion[k] := mem.sram[k];
      }
      assert mmu.codeRegion[..] == mem.code && mmu.sramRegion[..] == mem.sram;
    }

    /** `ExecuteOp(instruction)`: the handler's effect, computed on the
        value (Execution.Execute) and stored back. */
    method ExecuteOp(instruction: Half) returns (o: Outcome)
      requires Valid()
      modifies this, registers, registers.R, registers.PrefetchVal, mmu.codeRegion, mmu.sramRegion
      ensures Exec(Abs(), o) == Execution.Execute(old(Abs()), instruction as bv16)
    {
      var e := Execution.Execute(Abs(), instruction as bv16);
      Store(e.state);
      o := e.outcome;
    }

    /** The statements of the run loop before `ExecuteOp`, against
        Execution.Advance: move the queue up, `PC = R[15]`, `R[15] += 2`,
        `PrefetchNext()`. */
    method Advance() returns (o: Outcome)
      requires Valid()
      modifies registers, registers.R, registers.PrefetchVal
      ensures Exec(Abs(), o) == Execution.Advance(old(Abs()))
    {
      ghost var m := Abs();
      registers.PrefetchVal[0] := registers.PrefetchVal[1];
      registers.PC := registers.R[PC_INDEX];
      registers.R[PC_INDEX] := Wrap(registers.R[PC_INDEX] as int + 2);
      assert Abs() == Execution.Shifted(m);
      o := PrefetchNext();
    }

    /** The body of the run loop, against Execution.Step: take the first
        queued instruction, advance, and `ExecuteOp(instr)`. */
    method Step() returns (o: Outcome)
      requires Valid()
      modifies this, registers, registers.R, registers.PrefetchVal, mmu.codeRegion, mmu.sramRegion
      ensures Exec(Abs(), o) == Execution.Step(old(Abs()))
    {
      ghost var m := Abs();
      var instr := registers.PrefetchVal[0];
      assert instr == m.prefetch[0];
      o := Advance();
      Execution.StepAfterAdvance(m, Exec(Abs(), o));
      if o.Failed? {
        return;
      }
      o := ExecuteOp(instr);
    }

    /** `Run(n_instr)`, against Execution.Run: Prefetch, then `n_instr`
        iterations of the loop body; a throw ends the run. */
    method Run(n: nat) returns (o: Outcome)
      requires Valid()
      modifies this, registers, registers.R, registers.PrefetchVal, mmu.codeRegion, mmu.sramRegion
      ensures Exec(Abs(), o) == Execution.Run(old(Abs()), n)
    {
      o := Prefetch();
      if o.Failed? {
        return;
      }
      var k := n;
      ghost var goal := Execution.Run(old(Abs()), n);
      ghost var cur := Abs();
      while k > 0
        invariant o == Completed
        invariant cur == Abs()
        invariant goal == Execution.Steps(cur, k)
      {
        o := Step();
        ghost var e := Exec(Abs(), o);
        k := k - 1;
        Execution.StepsFirst(goal, cur, k, e);
        if o.Failed? {
          return;
        }
        cur := e.state;
      }
    }
  }

  /** Resetting the zeroed state reads PC 0 from address 4 and completes. */
  lemma ResetOfBlank()
    ensures Execution.Reset(Blank()) ==
      Done(Blank().(t := true, r := Blank().r[PC_INDEX := 2]))
  {
    var mem := Blank().mem;
    assert mem.code[4..8] == [0, 0, 0, 0];
    assert Memory.Read32(mem, 4) == Ok(0);
  }
}
