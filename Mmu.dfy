/** The memory management unit (CortexM4-CSharp/MMU.cs): the two backing byte
    arrays, updated in place, and the list of registered peripherals. The
    reads and writes are specified by the value-level functions of module
    Memory applied to the arrays' contents. */
module Mmu {
  import opened Words
  import opened Faults
  import opened Memory
  import opened Peripherals

  /** What a write method must leave behind: the new contents when the
      value-level write succeeds, and the old contents with the same fault
      when it fails. */
  predicate Performs(r: Result<Mem>, o: Outcome, before: Mem, after: Mem) {
    match r
    case Ok(m) => o == Completed && after == m
    case Err(f) => o == Failed(f) && after == before
  }

  /** `Array.Copy(bytes, 0, dst, offset, |bytes|)`: it throws, copying
      nothing, when the bytes do not fit. */
  method CopyInto(dst: array<Byte>, offset: nat, bytes: seq<Byte>) returns (o: Outcome)
    modifies dst
    ensures match Store(old(dst[..]), offset, bytes)
      case Ok(s) => o == Completed && dst[..] == s
      case Err(f) => o == Failed(f) && dst[..] == old(dst[..])
  {
    if offset + |bytes| > dst.Length {
      return Failed(OutOfBounds);
    }
    var k := 0;
    while k < |bytes|
      invariant 0 <= k <= |bytes|
      invariant forall j :: 0 <= j < dst.Length ==>
        dst[j] == if offset <= j < offset + k then bytes[j - offset] else old(dst[j])
    {
      dst[offset + k] := bytes[k];
      k := k + 1;
    }
    o := Completed;
  }

  class MMU {
    const codeRegion: array<Byte>
    const sramRegion: array<Byte>
    var peripherals: seq<Peripheral>

    /** The two regions are separate arrays. */
    predicate Valid() {
      codeRegion != sramRegion
    }

    constructor(codeRegion: array<Byte>, sramRegion: array<Byte>)
      ensures this.codeRegion == codeRegion && this.sramRegion == sramRegion
      ensures peripherals == []
    {
      this.codeRegion := codeRegion;
      this.sramRegion := sramRegion;
      peripherals := [];
    }

    /** The contents of both arrays, as the value `Memory` works on. */
    function Contents(): Mem
      reads codeRegion, sramRegion
    {
      Mem(codeRegion[..], sramRegion[..])
    }

    /** Registers `periph` unless it conflicts with one already registered. */
    method RegisterPeripheral(periph: Peripheral) returns (o: Outcome)
      modifies this
      ensures match Register(old(peripherals), periph)
        case Ok(ps) => o == Completed && peripherals == ps
        case Err(f) => o == Failed(f) && peripherals == old(peripherals)
    {
      var k := 0;
      while k < |peripherals|
        invariant 0 <= k <= |peripherals|
        invariant forall j :: 0 <= j < k ==> !InConflict(peripherals[j], periph)
      {
        if InConflict(peripherals[k], periph) {
          return Failed(PeripheralConflict);
        }
        k := k + 1;
      }
      peripherals := peripherals + [periph];
      o := Completed;
    }

    function Read8(address: Word): Result<Byte>
      reads codeRegion, sramRegion
    {
      Memory.Read8(Contents(), address)
    }

    function Read16(address: Word): Result<Half>
      reads codeRegion, sramRegion
    {
      Memory.Read16(Contents(), address)
    }

    function Read16s(address: Word): Result<Half>
      reads codeRegion, sramRegion
    {
      Memory.Read16s(Contents(), address)
    }

    function Read32(address: Word): Result<Word>
      reads codeRegion, sramRegion
    {
      Memory.Read32(Contents(), address)
    }

    /** The array an address is routed to and the offset inside it; an
        unmapped address is reported as None. */
    function Target(address: Word): Option<(array<Byte>, Word)> {
      match Route(address)
      case Code => Some((codeRegion, Wrap(address - CODE_BEGIN)))
      case Sram => Some((sramRegion, Wrap(address - SRAM_BEGIN)))
      case Unmapped => None
    }

    method Write32(address: Word, value: Word) returns (o: Outcome)
      requires Valid()
      modifies codeRegion, sramRegion
      ensures Performs(Memory.Write32(old(Contents()), address, value), o, old(Contents()), Contents())
    {
      match Target(address)
      case None => o := Completed;
      case Some((region, offset)) => o := CopyInto(region, offset, Bytes32(value));
    }

    method Write16(address: Word, value: Half) returns (o: Outcome)
      requires Valid()
      modifies codeRegion, sramRegion
      ensures Performs(Memory.Write16(old(Contents()), address, value), o, old(Contents()), Contents())
    {
      match Target(address)
      case None => o := Completed;
      case Some((region, offset)) => o := CopyInto(region, offset, Bytes16(value));
    }

    /** `region[offset] = value`: the indexer throws past the end. */
    method Write8(address: Word, value: Byte) returns (o: Outcome)
      requires Valid()
      modifies codeRegion, sramRegion
      ensures Performs(Memory.Write8(old(Contents()), address, value), o, old(Contents()), Contents())
    {
      match Target(address)
      case None => o := Completed;
      case Some((region, offset)) =>
        if offset >= region.Length {
          return Failed(OutOfBounds);
        }
        region[offset] := value;
        o := Completed;
    }
  }
}
