/** Failure-carrying wrappers shared by every module of the model. */
module Base {

  /** A value that may be absent (`null` / `undefined` / a missing key in the source). */
  datatype Option<T> = None | Some(value: T)

  /** The outcome of an operation that can throw: a value, or the error it throws. */
  datatype Result<T, E> = Ok(value: T) | Err(error: E)
}
