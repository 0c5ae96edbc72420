/** Option and Result wrappers shared by every module of the model. */
module Common {

  datatype Option<+T> = None | Some(value: T)

  /** The outcome of an operation that can fail; the failure carries an error value. */
  datatype Result<+T, +E> = Success(value: T) | Failure(error: E)

  /** A failure-or-nothing outcome. */
  datatype Outcome<+E> = Pass | Fail(error: E)
}
