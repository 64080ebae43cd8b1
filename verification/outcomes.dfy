/** Small success/failure wrappers used throughout the model in place of
    Python's None and raised exceptions. */
module Outcomes {

  /** A value that may be absent. */
  datatype Option<+T> = None | Some(value: T)

  /** The value of a computation that either returns or raises. */
  datatype Result<+T, +E> = Ok(value: T) | Err(error: E)

  /** The result of a computation that returns nothing or raises. */
  datatype Outcome<+E> = Pass | Fail(error: E)
}
