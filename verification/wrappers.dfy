/** Failure-compatible wrappers used across the model. */
module Wrappers {

  /** An optional value: `None` stands for PHP's `NULL` / "no node". */
  datatype Option<+T> = None | Some(value: T)

  /** The outcome of an operation that can fail with an error value. */
  datatype Result<+R, +E> = Success(value: R) | Failure(error: E)
}
