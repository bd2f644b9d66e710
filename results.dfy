/** Failure-carrying results used for every operation that can throw in the source. */
module Results {

  /** A value or the reason there is none. */
  datatype Result<+T, +E> = Ok(value: T) | Err(error: E)

  /** A present or absent value. */
  datatype Option<+T> = None | Some(value: T)

  /** Success without a value, or the reason for failure (a `void` call that may throw). */
  datatype Outcome<+E> = Pass | Fail(error: E)
}
