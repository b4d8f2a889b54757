/** Failure-carrying values used wherever the application awaits a call that may reject. */
module Wrappers {

  datatype Option<+T> = None | Some(value: T)

  /** The settled outcome of an awaited call: its resolved value or the error it rejected with. */
  datatype Result<+T, +E> = Ok(value: T) | Err(error: E)

  /** The outcome of an awaited call whose resolved value is not used. */
  datatype Outcome<+E> = Pass | Fail(error: E)
}
