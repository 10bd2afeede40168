/** Optional values and outcomes of operations of the bot that can fail. */
module Results {

  /** A value that may be absent: a missing document, a string that is not a number. */
  datatype Option<+T> = None | Some(value: T)

  /** The outcome of a handler that either produces a value or raises. */
  datatype Result<+T, +E> = Success(value: T) | Failure(error: E)
}
