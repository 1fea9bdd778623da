/** Failure-carrying datatypes shared by every module of the dispatcher model. */
module Wrappers {

  /** A value that may be absent: the model of a Go nil pointer or nil interface. */
  datatype Option<+T> = None | Some(value: T)

  /** Either the computed value or the error (or panic) that prevented it. */
  datatype Result<+T, +E> = Ok(value: T) | Err(error: E)
}
