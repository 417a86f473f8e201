/** Failure-compatible wrappers shared by every module of the model. */
module Wrappers {

  /** An optional value: the shape of Rust's `Option`. */
  datatype Option<+T> = None | Some(value: T)

  /** A value or an error: the shape of Rust's `Result`. */
  datatype Result<+R, +E> = Success(value: R) | Failure(error: E)

  /** A success that carries nothing, or an error: the shape of `Result<(), E>`. */
  datatype Outcome<+E> = Pass | Fail(error: E)
}
