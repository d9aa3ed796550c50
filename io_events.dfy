/** The commands the UI side sends to the IO worker (src/io/mod.rs). */
module IoEvents {

  /** `IoEvent`; a sleep carries its delay in whole seconds. */
  datatype IoEvent = Initialize | Sleep(duration: nat)
}
