/** Failure-compatible wrappers used by both engines in place of exceptions and `Option`. */
module Wrappers {

  datatype Option<+T> = None | Some(value: T)

  /** An error return: Python's raised exceptions and Rust's `Result<T, E>`. */
  datatype Result<+T, +E> = Ok(value: T) | Err(error: E)

  /** A check that either passes or fails with an error and no value. */
  datatype Outcome<+E> = Pass | Fail(error: E)
}
