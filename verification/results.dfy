/** Optional values and call outcomes shared by the extractor model. */
module Results {

  /** An optional value; `None` stands for a Java `null` or an absent match. */
  datatype Option<+T> = None | Some(value: T)

  /** The outcome of a call that either returns normally with a value or
      ends in an exception nobody catches. */
  datatype Result<+T, +E> = Success(value: T) | Failure(error: E)
}
