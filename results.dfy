/** Optional values and success/failure outcomes, shared by the other modules. */
module Results {

  datatype Option<T> = None | Some(value: T)

  /** The outcome of an operation that can fail with an error value. */
  datatype Result<T, E> = Success(value: T) | Failure(error: E)
}
