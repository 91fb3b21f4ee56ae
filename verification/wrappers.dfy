/** Wrappers used across the model: an optional value and a value-or-error
    result, standing in for JavaScript's `null`/`undefined` and the
    `{ success, errors }` objects the application returns. */
module Wrappers {

  datatype Option<+T> = None | Some(value: T)

  datatype Result<+R, +E> = Success(value: R) | Failure(error: E)
}
