/** The memory map behind the MMU (CortexM4-CSharp/MMU.cs), as values: a code
    byte array and an SRAM byte array, routed by constant address ranges,
    with little-endian halfword and word access. An access that runs past
    the end of its array fails, as C#'s indexer, `Array.Copy` and
    `BitConverter` throw there, and in that case nothing is written. An
    address outside both ranges reads as 0 and ignores writes. */
module Memory {
  import opened Words
  import opened Faults

  const CODE_BEGIN: Word := 0
  const CODE_END: Word := 255
  const SRAM_BEGIN: Word := 0
  const SRAM_END: Word := 0

  /** The contents of the two backing arrays. */
  datatype Mem = Mem(code: seq<Byte>, sram: seq<Byte>)

  datatype Region = Code | Sram | Unmapped

  /** Which array an address goes to: the code range is tested first. */
  function Route(address: Word): Region {
    if address <= CODE_END && address >= CODE_BEGIN then Code
    else if address <= SRAM_END && address >= SRAM_BEGIN then Sram
    else Unmapped
  }

  // ---------------------------------------------------------------------
  // Little-endian encodings (BitConverter on a little-endian host)

  /** `BitConverter.GetBytes(ushort)`. */
  function Bytes16(v: Half): (r: seq<Byte>)
    ensures |r| == 2
  {
    [v % 0x100, v / 0x100]
  }

  /** `BitConverter.GetBytes(uint)`: byte k is `(v >> 8k) & 0xFF`. */
  function Bytes32(v: Word): (r: seq<Byte>)
    ensures |r| == 4
  {
    var q1 := v / 0x100;
    var q2 := q1 / 0x100;
    [v % 0x100, q1 % 0x100, q2 % 0x100, q2 / 0x100]
  }

  /** `BitConverter.ToUInt16` applied to two bytes. */
  function FromBytes16(b: seq<Byte>): Half
    requires |b| == 2
  {
    b[0] as int + 0x100 * (b[1] as int)
  }

  /** `BitConverter.ToUInt32` applied to four bytes. */
  function FromBytes32(b: seq<Byte>): Word
    requires |b| == 4
  {
    b[0] as int + 0x100 * (b[1] as int + 0x100 * (b[2] as int + 0x100 * (b[3] as int)))
  }

  lemma Bytes16RoundTrip(v: Half)
    ensures FromBytes16(Bytes16(v)) == v
  {
  }

  lemma FromBytes16RoundTrip(b: seq<Byte>)
    requires |b| == 2
    ensures Bytes16(FromBytes16(b)) == b
  {
  }

  lemma Bytes32RoundTrip(v: Word)
    ensures FromBytes32(Bytes32(v)) == v
  {
  }

  /** Splitting off the low byte of `lo + 256 * hi` gives back `lo` and `hi`. */
  lemma SplitLowByte(lo: Byte, hi: int)
    ensures (lo + 0x100 * hi) % 0x100 == lo
    ensures (lo + 0x100 * hi) / 0x100 == hi
  {
  }

  lemma FromBytes32RoundTrip(b: seq<Byte>)
    requires |b| == 4
    ensures Bytes32(FromBytes32(b)) == b
  {
    var x2 := b[2] as int + 0x100 * (b[3] as int);
    var x1 := b[1] as int + 0x100 * x2;
    SplitLowByte(b[0], x1);
    SplitLowByte(b[1], x2);
    SplitLowByte(b[2], b[3]);
  }

  // ---------------------------------------------------------------------
  // One backing array

  /** `size` bytes of `region` from `offset`, or a failure when they run past its end. */
  function Load(region: seq<Byte>, offset: nat, size: nat): (r: Result<seq<Byte>>)
    ensures r.Ok? <==> offset + size <= |region|
    ensures r.Ok? ==> |r.value| == size
  {
    if offset + size <= |region| then Ok(region[offset..offset + size]) else Err(OutOfBounds)
  }

  /** `region` with `bytes` copied in at `offset`, or a failure (and no copy)
      when they do not fit. */
  function Store(region: seq<Byte>, offset: nat, bytes: seq<Byte>): (r: Result<seq<Byte>>)
    ensures r.Ok? <==> offset + |bytes| <= |region|
    ensures r.Ok? ==> |r.value| == |region|
  {
    if offset + |bytes| <= |region| then Ok(region[..offset] + bytes + region[offset + |bytes|..])
    else Err(OutOfBounds)
  }

  // ---------------------------------------------------------------------
  // The routed accesses

  /** `size` zero bytes: what an unmapped address reads as. */
  function Zeros(size: nat): (r: seq<Byte>)
    ensures |r| == size
  {
    if size == 0 then [] else [0] + Zeros(size - 1)
  }

  /** The `size` bytes an access of that width sees at `address`. */
  function Fetch(m: Mem, address: Word, size: nat): (r: Result<seq<Byte>>)
    ensures r.Ok? ==> |r.value| == size
  {
    match Route(address)
    case Code => Load(m.code, address - CODE_BEGIN, size)
    case Sram => Load(m.sram, address - SRAM_BEGIN, size)
    case Unmapped => Ok(Zeros(size))
  }

  /** The memory after an access stores `bytes` at `address`. */
  function Put(m: Mem, address: Word, bytes: seq<Byte>): Result<Mem> {
    match Route(address)
    case Code =>
      (match Store(m.code, address - CODE_BEGIN, bytes)
       case Ok(code) => Ok(m.(code := code))
       case Err(f) => Err(f))
    case Sram =>
      (match Store(m.sram, address - SRAM_BEGIN, bytes)
       case Ok(sram) => Ok(m.(sram := sram))
       case Err(f) => Err(f))
    case Unmapped => Ok(m)
  }

  function Read8(m: Mem, address: Word): Result<Byte> {
    match Fetch(m, address, 1)
    case Ok(b) => Ok(b[0])
    case Err(f) => Err(f)
  }

  function Read16(m: Mem, address: Word): Result<Half> {
    match Fetch(m, address, 2)
    case Ok(b) => Ok(FromBytes16(b))
    case Err(f) => Err(f)
  }

  /** Despite its name, the same unsigned read as Read16. */
  function Read16s(m: Mem, address: Word): Result<Half> {
    match Fetch(m, address, 2)
    case Ok(b) => Ok(FromBytes16(b))
    case Err(f) => Err(f)
  }

  function Read32(m: Mem, address: Word): Result<Word> {
    match Fetch(m, address, 4)
    case Ok(b) => Ok(FromBytes32(b))
    case Err(f) => Err(f)
  }

  function Write8(m: Mem, address: Word, value: Byte): (r: Result<Mem>)
    ensures r.Ok? ==> |r.value.code| == |m.code| && |r.value.sram| == |m.sram|
  {
    Put(m, address, [value])
  }

  function Write16(m: Mem, address: Word, value: Half): (r: Result<Mem>)
    ensures r.Ok? ==> |r.value.code| == |m.code| && |r.value.sram| == |m.sram|
  {
    Put(m, address, Bytes16(value))
  }

  function Write32(m: Mem, address: Word, value: Word): (r: Result<Mem>)
    ensures r.Ok? ==> |r.value.code| == |m.code| && |r.value.sram| == |m.sram|
  {
    Put(m, address, Bytes32(value))
  }

  // ---------------------------------------------------------------------
  // Properties

  /** The address ranges leave SRAM unreachable: sramBegin = codeBegin and
      sramEnd = 0 <= codeEnd, and the code range is tested first. */
  lemma SramNeverRouted(address: Word)
    ensures Route(address) != Sram
    ensures Route(address) == Code <==> address <= CODE_END
  {
  }

  /** Hence reads never look at the SRAM array and writes never change it. */
  lemma SramUntouched(m: Mem, sram: seq<Byte>, address: Word, v: Word)
    ensures Read8(m, address) == Read8(m.(sram := sram), address)
    ensures Read16(m, address) == Read16(m.(sram := sram), address)
    ensures Read32(m, address) == Read32(m.(sram := sram), address)
    ensures Write32(m, address, v).Ok? ==> Write32(m, address, v).value.sram == m.sram
    ensures Write16(m, address, LowHalf(v)).Ok? ==> Write16(m, address, LowHalf(v)).value.sram == m.sram
    ensures Write8(m, address, LowByte(v)).Ok? ==> Write8(m, address, LowByte(v)).value.sram == m.sram
  {
  }

  /** Every address above codeEnd reads as 0, and writes to it change nothing. */
  lemma AboveCodeEndIsUnmapped(m: Mem, address: Word, v: Word)
    requires address > CODE_END
    ensures Read8(m, address) == Ok(0) && Read16(m, address) == Ok(0)
    ensures Read16s(m, address) == Ok(0) && Read32(m, address) == Ok(0)
    ensures Write8(m, address, LowByte(v)) == Ok(m)
    ensures Write16(m, address, LowHalf(v)) == Ok(m)
    ensures Write32(m, address, v) == Ok(m)
  {
    assert Fetch(m, address, 2).value == [0, 0];
    assert Fetch(m, address, 4).value == [0, 0, 0, 0];
  }

  lemma Read16sIsRead16(m: Mem, address: Word)
    ensures Read16s(m, address) == Read16(m, address)
  {
  }

  /** Write8 then Read8 at the same code address gives the byte back, and
      no other byte of either array changes. */
  lemma Write8ThenRead8(m: Mem, address: Word, v: Byte)
    requires address <= CODE_END && address < |m.code|
    ensures Write8(m, address, v).Ok?
    ensures var m' := Write8(m, address, v).value;
      && Read8(m', address) == Ok(v)
      && m'.sram == m.sram && |m'.code| == |m.code|
      && forall k :: 0 <= k < |m.code| && k != address ==> m'.code[k] == m.code[k]
  {
  }

  /** Write16 then Read16 round-trips when the halfword fits in the code array;
      the bytes outside it are unchanged. */
  lemma Write16ThenRead16(m: Mem, address: Word, v: Half)
    requires address <= CODE_END && address + 2 <= |m.code|
    ensures Write16(m, address, v).Ok?
    ensures var m' := Write16(m, address, v).value;
      && Read16(m', address) == Ok(v)
      && m'.sram == m.sram && |m'.code| == |m.code|
      && forall k :: 0 <= k < |m.code| && !(address <= k < address + 2) ==> m'.code[k] == m.code[k]
  {
    var m' := Write16(m, address, v).value;
    assert m'.code[address..address + 2] == Bytes16(v);
    Bytes16RoundTrip(v);
  }

  /** Write32 then Read32 round-trips when the word fits in the code array;
      the bytes outside it are unchanged. */
  lemma Write32ThenRead32(m: Mem, address: Word, v: Word)
    requires address <= CODE_END && address + 4 <= |m.code|
    ensures Write32(m, address, v).Ok?
    ensures var m' := Write32(m, address, v).value;
      && Read32(m', address) == Ok(v)
      && m'.sram == m.sram && |m'.code| == |m.code|
      && forall k :: 0 <= k < |m.code| && !(address <= k < address + 4) ==> m'.code[k] == m.code[k]
  {
    var m' := Write32(m, address, v).value;
    assert m'.code[address..address + 4] == Bytes32(v);
    Bytes32RoundTrip(v);
  }

  /** A word read inside the code array sees only the four bytes at its
      address. */
  lemma Read32FromSameBytes(m: Mem, m': Mem, address: Word)
    requires address <= CODE_END && address + 4 <= |m.code| && address + 4 <= |m'.code|
    requires forall k :: address <= k < address + 4 ==> m'.code[k] == m.code[k]
    ensures Read32(m', address) == Read32(m, address)
  {
    assert m'.code[address..address + 4] == m.code[address..address + 4];
  }

  /** With the 256-byte code array the CPU supplies, exactly the word
      accesses at 253..255 and the halfword accesses at 255 run past its end;
      byte accesses never fail. */
  lemma AccessFailsPastArrayEnd(m: Mem, address: Word, v: Word)
    requires |m.code| == 256
    ensures Read32(m, address).Err? <==> 253 <= address <= 255
    ensures Write32(m, address, v).Err? <==> 253 <= address <= 255
    ensures Read16(m, address).Err? <==> address == 255
    ensures Write16(m, address, LowHalf(v)).Err? <==> address == 255
    ensures Read8(m, address).Ok? && Write8(m, address, LowByte(v)).Ok?
  {
  }
}
