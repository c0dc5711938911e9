/** Failure-carrying datatypes shared by every module of the model. */
module Wrappers {

  /** Rust's `Option<T>`. */
  datatype Option<+T> = None | Some(value: T)

  /** Rust's `Result<T, E>`. */
  datatype Result<+T, +E> = Ok(value: T) | Err(error: E)

  /** The outcome of guest code that may panic (an `unwrap` of `None`, a slice
      past the end of its buffer). A panic halts the guest: no value comes back. */
  datatype Flow<+T> = Returned(value: T) | Panicked
}
