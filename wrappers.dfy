/** Failure-carrying values for the source's nil arguments and panics. */
module Wrappers {

  datatype Option<+T> = None | Some(value: T)

  /** The outcome of an operation that either completes or fails with an error. */
  datatype Outcome<+E> = Success | Fail(error: E)
}
