/** Failure-compatible wrappers used throughout the model: an optional value
    (Python's `None` or a value) and a result that is either a value or an error
    (a Python exception). */
module Wrappers {

  datatype Option<+T> = None | Some(value: T)

  datatype Result<+T, +E> = Ok(value: T) | Err(error: E)
}
