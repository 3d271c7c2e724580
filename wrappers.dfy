/** Optional values and results with an error, shared by the server and client models. */
module Wrappers {

  /** A value that may be absent (JavaScript's `undefined` result). */
  datatype Option<+T> = None | Some(value: T)

  /** The outcome of a handler: the value it answers with, or the error it reports. */
  datatype Result<+T, +E> = Success(value: T) | Failure(error: E)
}
