/** Failure-compatible datatypes used throughout the model. */
module Wrappers {

  /** A value that may be absent: a missing attribute, a string that does not parse. */
  datatype Option<+T> = None | Some(value: T)

  /** The outcome of a check that either passes or fails with an error value
      (a thrown exception in the C++ source). */
  datatype Outcome<+E> = Pass | Fail(error: E)
}
