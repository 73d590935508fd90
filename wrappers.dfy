/** Failure-carrying values used in place of the source's exceptions. */
module Wrappers {

  datatype Option<+T> = None | Some(value: T)

  datatype Result<+T, +E> = Ok(value: T) | Err(error: E)

  /** The outcome of a step that returns nothing on success (a `Promise<void>` that may reject). */
  datatype Outcome<+E> = Pass | Fail(error: E)
}
