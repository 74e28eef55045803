/** The register file of the core (CortexM4-CSharp/Registers.cs): sixteen
    general-purpose registers R0..R15, a PC and an SP field, the N, Z, C, V
    flags, the Thumb bit T and the two-slot prefetch queue. */
module RegisterFile {
  import opened Words

  class Registers {
    /** R0..R15. R has a private setter, so the array itself never changes;
        only its elements are updated in place. */
    const R: array<Word>
    var PC: Word
    var SP: Word
    var N: bool
    var Z: bool
    var C: bool
    var V: bool
    var T: bool
    /** The prefetched halfwords; the core only ever updates its elements. */
    const PrefetchVal: array<Half>

    /** The array shapes every other member relies on. */
    predicate Valid() {
      R.Length == 16 && PrefetchVal.Length == 2
    }

    /** A fresh register file: everything zero and every flag false. */
    constructor()
      ensures Valid()
      ensures fresh(R) && fresh(PrefetchVal)
      ensures R[..] == seq(16, _ => 0)
      ensures PC == 0 && SP == 0
      ensures !N && !Z && !C && !V && !T
      ensures PrefetchVal[..] == [0, 0]
    {
      R := new Word[16](_ => 0);
      PC := 0;
      SP := 0;
      N := false;
      Z := false;
      C := false;
      V := false;
      T := false;
      PrefetchVal := new Half[2](_ => 0);
    }
  }
}
