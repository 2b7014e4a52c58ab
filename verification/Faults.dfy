/** Commands to the outside may fail, before or after they took effect. A script, which may be any, says how each of
    them falls out. */
module Faults {
  datatype Fault = Succeeds | FailsBefore | FailsAfter

  /** The fault of the n-th command; after the end of the script every command succeeds. */
  function Scripted(script: seq<Fault>, n: nat): Fault { if n < |script| then script[n] else Succeeds }
}
