/** Optional values and results, used where the C# code has null or throws. */
module Wrappers {

  /** A value that may be absent (null in the C# code). */
  datatype Option<+T> = None | Some(value: T)

  /** The outcome of a call that either returns a value or throws. */
  datatype Result<+T, +E> = Success(value: T) | Failure(error: E)
}
