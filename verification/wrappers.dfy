/** Failure-carrying datatypes shared by the models of the kernel's Rust code:
    `Option` for Rust's `Option<T>` and `Result` for Rust's `Result<T, E>`. */
module Wrappers {

  /** Rust's `Option<T>`. */
  datatype Option<+T> = None | Some(value: T)

  /** Rust's `Result<T, E>`: `Success` is `Ok`, `Failure` is `Err`. */
  datatype Result<+T, +E> = Success(value: T) | Failure(error: E)
}
