/** The Option and Result datatypes shared by the other modules. */
module Wrappers {

  /** A value that may be absent: JavaScript's `null`/`undefined`. */
  datatype Option<+T> = None | Some(value: T)

  /** A value or an error value, for the calls that return `new Error(...)`. */
  datatype Result<+R, +E> = Success(value: R) | Failure(error: E)
}
