/** Failure-carrying wrappers shared by every service of the model. */
module Common {

  /** A value that may be absent: a nullable column or an optional request field. */
  datatype Option<+T> = None | Some(value: T)

  /** The outcome of a service call: a value, or the exception it throws. */
  datatype Result<+T, +E> = Success(value: T) | Failure(error: E)
}
