/** Failure-compatible wrappers used throughout the model. */
module Wrappers {

  /** `None` stands for JavaScript's `undefined` or `null` where the program
      distinguishes presence from absence. */
  datatype Option<+T> = None | Some(value: T)

  /** A computation that either yields a value or an error message. */
  datatype Result<+T, +E> = Ok(value: T) | Err(error: E)
}
