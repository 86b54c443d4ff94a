/** Optional values and error results, standing for Go's nil pointers and
    `(value, error)` returns. */
module Wrappers {

  datatype Option<+T> = None | Some(value: T)

  /** The error text is kept as a plain string, as the Go code wraps
      errors with `errors.New` and `fmt.Errorf`. */
  datatype Result<+T> = Success(value: T) | Failure(error: string)
}
