/** The address-range record of a memory-mapped peripheral
    (CortexM4-CSharp/Peripheral.cs). Its fields are set only by the
    constructor, so a peripheral is a value; the device's read and write
    operations are not part of this model. */
module Peripherals {
  import opened Words
  import opened Faults

  datatype Peripheral = Peripheral(startAddress: Word, endAddress: Word, name: Option<string>)

  /** The constructor: it records the range and leaves `name` unassigned (null). */
  function NewPeripheral(startAddress: Word, endAddress: Word): (p: Peripheral) {
    Peripheral(startAddress, endAddress, None)
  }

  function GetStartAddress(p: Peripheral): Word {
    p.startAddress
  }

  function GetEndAddress(p: Peripheral): Word {
    p.endAddress
  }

  function GetName(p: Peripheral): Option<string> {
    p.name
  }

  /** `p.InConflict(q)`: q starts inside p's range, or p starts inside q's. */
  predicate InConflict(p: Peripheral, q: Peripheral) {
    (q.startAddress >= p.startAddress && q.startAddress <= p.endAddress) ||
    (p.startAddress >= q.startAddress && p.startAddress <= q.endAddress)
  }

  /** `p.InRange(address)`, as written: the first comparison points the other way. */
  predicate InRange(p: Peripheral, address: Word) {
    p.startAddress >= address && address < p.endAddress
  }

  // ---------------------------------------------------------------------
  // Reference definitions

  /** The range is not empty. */
  predicate WellFormed(p: Peripheral) {
    p.startAddress <= p.endAddress
  }

  /** The closed range [start, end] of `p` contains `x`. */
  predicate Covers(p: Peripheral, x: int) {
    p.startAddress <= x <= p.endAddress
  }

  // ---------------------------------------------------------------------
  // Properties

  /** The getters give back what the constructor was passed, and a freshly
      constructed peripheral has no name. */
  lemma ConstructorAndGetters(s: Word, e: Word)
    ensures GetStartAddress(NewPeripheral(s, e)) == s
    ensures GetEndAddress(NewPeripheral(s, e)) == e
    ensures GetName(NewPeripheral(s, e)) == None
  {
  }

  lemma InConflictIsSymmetric(p: Peripheral, q: Peripheral)
    ensures InConflict(p, q) == InConflict(q, p)
  {
  }

  /** For non-empty ranges a conflict is exactly an overlap of the closed
      ranges; ranges that share only an endpoint conflict too. */
  lemma InConflictIsOverlap(p: Peripheral, q: Peripheral)
    requires WellFormed(p) && WellFormed(q)
    ensures InConflict(p, q) <==> exists x :: Covers(p, x) && Covers(q, x)
  {
    if InConflict(p, q) {
      var x := if p.startAddress <= q.startAddress then q.startAddress else p.startAddress;
      assert Covers(p, x) && Covers(q, x);
    }
  }

  /** Ranges that touch at one address conflict. */
  lemma SharedEndpointConflicts(p: Peripheral, q: Peripheral)
    requires WellFormed(p) && WellFormed(q)
    requires p.endAddress == q.startAddress
    ensures InConflict(p, q) && InConflict(q, p)
  {
  }

  /** A non-empty range conflicts with itself, so the same peripheral can
      never be registered twice. */
  lemma SelfConflict(p: Peripheral)
    requires WellFormed(p)
    ensures InConflict(p, p)
  {
  }

  /** As written, no address strictly after the start is ever in range,
      and the start itself is in range only when the range is longer than
      one address. */
  lemma InRangeRejectsInterior(p: Peripheral, address: Word)
    ensures p.startAddress < address ==> !InRange(p, address)
    ensures InRange(p, p.startAddress) <==> p.startAddress < p.endAddress
  {
  }

  // ---------------------------------------------------------------------
  // The registry kept by the MMU

  /** Some registered peripheral conflicts with `p` (tested as `r.InConflict(p)`). */
  predicate ConflictsWithAny(ps: seq<Peripheral>, p: Peripheral) {
    exists k :: 0 <= k < |ps| && InConflict(ps[k], p)
  }

  /** The registry after `RegisterPeripheral(p)`: unchanged and failed on a
      conflict, otherwise extended with `p` at the end. */
  function Register(ps: seq<Peripheral>, p: Peripheral): Result<seq<Peripheral>> {
    if ConflictsWithAny(ps, p) then Err(PeripheralConflict) else Ok(ps + [p])
  }

  /** No two registered peripherals conflict. */
  predicate ConflictFree(ps: seq<Peripheral>) {
    forall j, k :: 0 <= j < |ps| && 0 <= k < |ps| && j != k ==> !InConflict(ps[j], ps[k])
  }

  /** Registration keeps the registry conflict-free, whether it succeeds or not. */
  lemma RegisterKeepsConflictFree(ps: seq<Peripheral>, p: Peripheral)
    requires ConflictFree(ps)
    ensures Register(ps, p).Ok? ==> ConflictFree(Register(ps, p).value)
  {
    if Register(ps, p).Ok? {
      var ps' := ps + [p];
      forall j, k | 0 <= j < |ps'| && 0 <= k < |ps'| && j != k
        ensures !InConflict(ps'[j], ps'[k])
      {
        if k == |ps| {
          assert !InConflict(ps[j], p);
        } else if j == |ps| {
          assert !InConflict(ps[k], p);
          InConflictIsSymmetric(ps[k], p);
        }
      }
    }
  }

  /** Registration fails exactly when some registered peripheral conflicts,
      and on success the candidate is the new last element. */
  lemma RegisterOutcome(ps: seq<Peripheral>, p: Peripheral)
    ensures Register(ps, p).Err? <==> exists k :: 0 <= k < |ps| && InConflict(ps[k], p)
    ensures Register(ps, p).Ok? ==>
      (|Register(ps, p).value| == |ps| + 1 && Register(ps, p).value[|ps|] == p
       && Register(ps, p).value[..|ps|] == ps)
  {
  }

  /** Registering a peripheral with a non-empty range that is already
      registered fails. */
  lemma RegisterTwiceFails(ps: seq<Peripheral>, p: Peripheral)
    requires WellFormed(p)
    requires p in ps
    ensures Register(ps, p) == Err(PeripheralConflict)
  {
    var k :| 0 <= k < |ps| && ps[k] == p;
    SelfConflict(p);
    assert InConflict(ps[k], p);
  }
}
