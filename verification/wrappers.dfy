/** Failure-aware result types shared by the pricing modules. */
module Wrappers {

  /** A value that may be absent: no tier met, no rule matched. */
  datatype Option<+T> = None | Some(value: T)

  /** A computation that either yields a value or stops with an error. */
  datatype Result<+R, +E> = Success(value: R) | Failure(error: E)
}
