/** The state the CPU core (CortexM4-CSharp/CPU.cs) works on, as a value: the
    register file, flags, prefetch queue, memory contents and the CPU's
    `instrBase` field. Every handler is a function from one state to an
    `Exec`: the state afterwards and whether the step completed or threw.
    A step that throws keeps every update it made before the throw. */
module Machines {
  import opened Words
  import opened Faults
  import Memory

  type RegisterValues = s: seq<Word> | |s| == 16 witness seq(16, _ => 0)
  type Slots = s: seq<Half> | |s| == 2 witness [0, 0]
  type RegIndex = k: nat | k < 16

  const SP_INDEX: RegIndex := 13
  const LR_INDEX: RegIndex := 14
  const PC_INDEX: RegIndex := 15

  /** `new MMU(new byte[256], new byte[256])`: the CPU's two regions are 256
      bytes each, and no access changes an array's length. */
  const REGION_SIZE: nat := 256
  type CpuMemory = m: Memory.Mem | |m.code| == REGION_SIZE && |m.sram| == REGION_SIZE
    witness Memory.Mem(seq(256, _ => 0), seq(256, _ => 0))

  datatype Machine = Machine(
    r: RegisterValues,   // R0..R15
    pc: Word,            // the PC field: between steps, the address of the next instruction
    sp: Word,            // the SP field (unused by the core: R13 is the stack pointer)
    n: bool, z: bool, c: bool, v: bool,
    t: bool,             // Thumb state
    prefetch: Slots,     // PrefetchVal[0..1]
    mem: CpuMemory,
    instrBase: int)      // the register number of the last BX/BLX

  datatype Exec = Exec(state: Machine, outcome: Outcome)

  function Done(m: Machine): Exec {
    Exec(m, Completed)
  }

  function Fail(m: Machine, f: Fault): Exec {
    Exec(m, Failed(f))
  }

  /** `registers.R[k] = value`. */
  function SetReg(m: Machine, k: RegIndex, value: Word): (m': Machine)
    ensures m'.r[k] == value
    ensures forall j :: 0 <= j < 16 && j != k ==> m'.r[j] == m.r[j]
  {
    m.(r := m.r[k := value])
  }

  /** `N = (value & 0x80000000) != 0; Z = value == 0;`: the two flags every
      data-processing handler derives from its result. */
  function WithNZ(m: Machine, value: Word): Machine {
    m.(n := SignBit(value), z := value == 0)
  }

  // ---------------------------------------------------------------------
  // Memory accesses through the MMU

  function Store32(m: Machine, address: Word, value: Word): Exec {
    match Memory.Write32(m.mem, address, value)
    case Ok(mem) => Done(m.(mem := mem))
    case Err(f) => Fail(m, f)
  }

  function Store16(m: Machine, address: Word, value: Half): Exec {
    match Memory.Write16(m.mem, address, value)
    case Ok(mem) => Done(m.(mem := mem))
    case Err(f) => Fail(m, f)
  }

  function Store8(m: Machine, address: Word, value: Byte): Exec {
    match Memory.Write8(m.mem, address, value)
    case Ok(mem) => Done(m.(mem := mem))
    case Err(f) => Fail(m, f)
  }

  /** `R[k] = mmu.Read32(address)`. */
  function Load32(m: Machine, k: RegIndex, address: Word): Exec {
    match Memory.Read32(m.mem, address)
    case Ok(value) => Done(SetReg(m, k, value))
    case Err(f) => Fail(m, f)
  }

  /** `R[k] = mmu.Read16(address)`, zero-extended. */
  function Load16(m: Machine, k: RegIndex, address: Word): Exec {
    match Memory.Read16(m.mem, address)
    case Ok(value) => Done(SetReg(m, k, value))
    case Err(f) => Fail(m, f)
  }

  /** `R[k] = mmu.Read16s(address)`, zero-extended like Load16. */
  function Load16s(m: Machine, k: RegIndex, address: Word): Exec {
    match Memory.Read16s(m.mem, address)
    case Ok(value) => Done(SetReg(m, k, value))
    case Err(f) => Fail(m, f)
  }

  /** `R[k] = mmu.Read8(address)`, zero-extended. */
  function Load8(m: Machine, k: RegIndex, address: Word): Exec {
    match Memory.Read8(m.mem, address)
    case Ok(value) => Done(SetReg(m, k, value))
    case Err(f) => Fail(m, f)
  }

  /** A word store changes memory only. */
  lemma Store32Frame(m: Machine, address: Word, value: Word)
    ensures var s := Store32(m, address, value).state; s == m.(mem := s.mem)
  {
  }

  /** A word load changes only the register it loads. */
  lemma Load32Frame(m: Machine, k: RegIndex, address: Word)
    ensures var s := Load32(m, k, address).state; s == m.(r := m.r[k := s.r[k]])
  {
  }

  /** The narrower stores change memory only. */
  lemma Store16Frame(m: Machine, address: Word, value: Half)
    ensures var s := Store16(m, address, value).state; s == m.(mem := s.mem)
  {
  }

  lemma Store8Frame(m: Machine, address: Word, value: Byte)
    ensures var s := Store8(m, address, value).state; s == m.(mem := s.mem)
  {
  }

  /** The narrower loads change only the register they load, and leave a
      zero-extended value in it. */
  lemma Load16Frame(m: Machine, k: RegIndex, address: Word)
    ensures var s := Load16(m, k, address).state; s == m.(r := m.r[k := s.r[k]])
    ensures Load16(m, k, address).outcome.Completed? ==> Load16(m, k, address).state.r[k] < 0x1_0000
  {
  }

  lemma Load16sFrame(m: Machine, k: RegIndex, address: Word)
    ensures var s := Load16s(m, k, address).state; s == m.(r := m.r[k := s.r[k]])
    ensures Load16s(m, k, address).outcome.Completed? ==> Load16s(m, k, address).state.r[k] < 0x1_0000
  {
  }

  lemma Load8Frame(m: Machine, k: RegIndex, address: Word)
    ensures var s := Load8(m, k, address).state; s == m.(r := m.r[k := s.r[k]])
    ensures Load8(m, k, address).outcome.Completed? ==> Load8(m, k, address).state.r[k] < 0x100
  {
  }

  /** Memory reads `value` as the word at `address`. */
  predicate WordAt(mem: Memory.Mem, address: Word, value: Word) {
    Memory.Read32(mem, address) == Ok(value)
  }

  /** A word load completes exactly when the read does, and leaves the word
      read in the register. */
  lemma Load32Reads(m: Machine, k: RegIndex, address: Word)
    ensures Load32(m, k, address).outcome.Completed? <==> Memory.Read32(m.mem, address).Ok?
    ensures Load32(m, k, address).outcome.Completed? ==>
      WordAt(m.mem, address, Load32(m, k, address).state.r[k])
  {
  }

  // ---------------------------------------------------------------------
  // The prefetch queue

  /** `Prefetch()`: slot 0 from the halfword at PC, slot 1 from PC + 2. */
  function Prefetch(m: Machine): Exec {
    match Memory.Read16(m.mem, m.pc)
    case Err(f) => Fail(m, f)
    case Ok(h0) =>
      var m1 := m.(prefetch := m.prefetch[0 := h0]);
      match Memory.Read16(m1.mem, Wrap(m1.pc + 2))
      case Err(f) => Fail(m1, f)
      case Ok(h1) => Done(m1.(prefetch := m1.prefetch[1 := h1]))
  }

  /** `PrefetchNext()`: slot 1 from the halfword at PC + 2. */
  function PrefetchNext(m: Machine): Exec {
    match Memory.Read16(m.mem, Wrap(m.pc + 2))
    case Err(f) => Fail(m, f)
    case Ok(h1) => Done(m.(prefetch := m.prefetch[1 := h1]))
  }

  /** A successful PrefetchNext fills the second slot from PC + 2 and
      changes nothing else. */
  lemma PrefetchNextFillsQueue(m: Machine)
    requires Memory.Read16(m.mem, m.pc) == Ok(m.prefetch[0])
    ensures var e := PrefetchNext(m);
      e.outcome.Completed? ==>
        && e.state == m.(prefetch := e.state.prefetch)
        && QueueHolds(e.state, e.state.pc)
  {
  }

  /** The sequence every taken branch ends with:
      `R[15] = target; PC = R[15]; R[15] += 2; Prefetch();`. */
  function Jump(m: Machine, target: Word): Exec {
    var m1 := SetReg(m, PC_INDEX, target);
    var m2 := m1.(pc := m1.r[PC_INDEX]);
    Prefetch(SetReg(m2, PC_INDEX, Wrap(m2.r[PC_INDEX] as int + 2)))
  }

  // ---------------------------------------------------------------------
  // Properties

  /** The queue holds the halfwords at `a` and at `a + 2`. */
  predicate QueueHolds(m: Machine, a: Word) {
    Memory.Read16(m.mem, a) == Ok(m.prefetch[0]) &&
    Memory.Read16(m.mem, Wrap(a + 2)) == Ok(m.prefetch[1])
  }

  /** A successful Prefetch fills the queue from PC and PC + 2 and changes
      nothing else. */
  lemma PrefetchFillsQueue(m: Machine)
    ensures Prefetch(m).outcome.Completed? ==>
      var m' := Prefetch(m).state;
      QueueHolds(m', m.pc) && m' == m.(prefetch := m'.prefetch)
  {
  }

  /** Whatever its outcome, Prefetch changes nothing but the queue. */
  lemma PrefetchOnlyFillsQueue(m: Machine)
    ensures Prefetch(m).state == m.(prefetch := Prefetch(m).state.prefetch)
  {
    match Memory.Read16(m.mem, m.pc)
    case Err(_) =>
    case Ok(h0) =>
      var m1 := m.(prefetch := m.prefetch[0 := h0]);
      match Memory.Read16(m1.mem, Wrap(m1.pc + 2))
      case Err(_) =>
      case Ok(_) =>
  }

  /** Prefetch fails exactly when one of the two halfword reads fails. */
  lemma PrefetchFailsOnRead(m: Machine)
    ensures Prefetch(m).outcome.Failed? <==>
      Memory.Read16(m.mem, m.pc).Err? || Memory.Read16(m.mem, Wrap(m.pc + 2)).Err?
  {
  }

  /** A jump leaves the target in PC and target + 2 in R15; the rest of the
      register file, the flags and memory are unchanged, and on success the
      queue holds the halfwords at the target. */
  lemma JumpEffect(m: Machine, target: Word)
    ensures var e := Jump(m, target);
      && e.state == m.(r := m.r[PC_INDEX := Wrap(target + 2)], pc := target, prefetch := e.state.prefetch)
      && (e.outcome.Completed? ==> QueueHolds(e.state, target))
  {
    var m1 := SetReg(m, PC_INDEX, target);
    var m2 := m1.(pc := m1.r[PC_INDEX]);
    var m3 := SetReg(m2, PC_INDEX, Wrap(m2.r[PC_INDEX] as int + 2));
    assert m3.r == m.r[PC_INDEX := Wrap(target + 2)];
    assert m3 == m.(r := m.r[PC_INDEX := Wrap(target + 2)], pc := target);
    PrefetchOnlyFillsQueue(m3);
    PrefetchFillsQueue(m3);
  }
}
