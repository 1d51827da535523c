/** Optional values, and results that carry an error message, for the
    places where the Go code returns a value together with an error. */
module Wrappers {

  datatype Option<+T> = None | Some(value: T)

  datatype Result<+T> = Success(value: T) | Failure(error: string)
}
