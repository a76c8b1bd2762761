/** Optional values and results with an error, as the chat widget's model uses them. */
module Wrappers {

  /** A value that may be absent (a JavaScript `undefined` field or optional chain). */
  datatype Option<+T> = None | Some(value: T)

  /** The outcome of an operation that may throw. */
  datatype Result<+R, +E> = Success(value: R) | Failure(error: E)
}
