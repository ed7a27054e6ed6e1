/** Failure-carrying values used for the Rust `Option`, `Result<T, E>` and `Result<(), E>`. */
module Results {

  datatype Option<+T> = None | Some(value: T)

  /** `Result<T, E>`: a value or an error. */
  datatype Result<+T, +E> = Success(value: T) | Failure(error: E)

  /** `Result<(), E>`: success without a value, or an error. */
  datatype Outcome<+E> = Pass | Fail(error: E)
}
