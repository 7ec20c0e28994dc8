/** Option and Result, the usual failure-carrying datatypes. */
module Wrappers {

  /** A value that may be absent (JavaScript's NaN, undefined or a falsy field). */
  datatype Option<+T> = None | Some(value: T)

  /** The outcome of an operation that throws an Error in the source. */
  datatype Result<+T, +E> = Ok(value: T) | Err(error: E)
}
