/** Java's nullable references and thrown exceptions, as values. */
module Options {

  /** A reference that may be null. */
  datatype Option<+T> = None | Some(value: T)

  /** A call that returns a value or throws. */
  datatype Result<+T, +E> = Success(value: T) | Failure(error: E)
}
