/** Failure-compatible result types shared by the model. */
module Wrappers {

  /** A value that may be absent: JavaScript's `undefined` for an optional field. */
  datatype Option<+T> = None | Some(value: T)

  /** The verdict of a check that either passes or fails with a reason. */
  datatype Outcome<+E> = Pass | Fail(error: E)

  /** A computed value, or the reason the computation failed (a thrown error). */
  datatype Result<+T, +E> = Ok(value: T) | Err(error: E)
}
