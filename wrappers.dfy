/** Optional values and the error-carrying results of the code generator. */
module Wrappers {

  /** A Go pointer that may be nil, or a value that may be absent. */
  datatype Option<+T> = None | Some(value: T)

  /** A Go `error` value: only its message is observable. */
  datatype Error = Error(message: string)

  /** The `(value, error)` pair a Go function returns: either a value or an error, never both. */
  datatype Result<+T> = Success(value: T) | Failure(error: Error)
}
