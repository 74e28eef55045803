/** The failure kinds of the emulator core. Every exception the C# code throws
    becomes one of these values; exception types and message strings are not
    modelled, only which kind of failure happens. */
module Faults {

  /** The CPU features that the core recognises but deliberately does not implement. */
  datatype Feature =
    | Swi      // SWI
    | Dmb      // DMB / DSB
    | Cps      // CPSIE / CPSID
    | Svc      // SVC
    | Bkpt     // BKPT
    | Wfx      // WFE / WFI
    | Sev      // SEV
    | Isb      // ISB
    | Extend   // SXTB / SXTH / UXTB / UXTH

  datatype Fault =
    | UnknownInstruction(raw: bv16)       // the halfword matched no decode-table entry
    | NotImplemented(feature: Feature)    // a recognised stub
    | UnsupportedSubOperation(raw: bv16)  // a handler's inner opcode is outside its switch
    | IllegalStateTransition              // BX / BLX to an ARM-state (even) address
    | OutOfBounds                         // an access ran past the end of a backing array
    | PeripheralConflict                  // registration of an overlapping peripheral

  /** How a state transition ended: normally, or by throwing. */
  datatype Outcome = Completed | Failed(fault: Fault)

  /** A value, or the fault that was thrown instead of producing it. */
  datatype Result<T> = Ok(value: T) | Err(fault: Fault)

  datatype Option<T> = None | Some(value: T)
}
