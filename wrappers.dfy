/** Failure-carrying result types shared by every module of the model.
    Go's `error` return is `Option<E>`: `None` stands for `nil`. */
module Wrappers {

  datatype Option<+T> = None | Some(value: T)

  /** A value together with Go's `(T, error)` convention: either a value or an error. */
  datatype Result<+T, +E> = Ok(value: T) | Err(error: E)
}
