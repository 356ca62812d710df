/** Failure-carrying values: the Go convention of returning `(value, error)`
    or a nil-able `error` is modelled by these two datatypes. */
module Results {

  /** A value that may be absent; `None` plays the role of Go's nil error. */
  datatype Option<+T> = None | Some(value: T)

  /** Either a value or an error, for Go functions returning `(T, error)`. */
  datatype Result<+T, +E> = Success(value: T) | Failure(error: E)
}
