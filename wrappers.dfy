/** Option and Result, used for null `shared_ptr`s and for thrown exceptions. */
module Wrappers {

  /** An optional value: `None` stands for a null `shared_ptr`. */
  datatype Option<+T> = None | Some(value: T)

  /** The value of a computation that may throw: `Err` carries the exception kind. */
  datatype Result<+T, +E> = Ok(value: T) | Err(error: E)
}
