/** Optional values and success-or-error results, used where the Go code
    returns a nil pointer or an `error`. */
module Results {

  datatype Option<T> = None | Some(value: T)

  datatype Result<T, E> = Success(value: T) | Failure(error: E)
}
