/** Values that may be absent, and the ways a durable save can end. */
module Wrappers {
  datatype Option<+T> = None | Some(value: T)

  /** A save returns, or fails before its commit took effect, or fails after it. */
  datatype SaveOutcome = Committed | LostUnapplied | LostApplied
}
