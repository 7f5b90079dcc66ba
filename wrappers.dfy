/** Optional values and results with an error, used where the C code returns NULL or a status code. */
module Wrappers {

  /** A value that may be absent: `None` stands for a NULL pointer or a "not found" sentinel. */
  datatype Option<+T> = None | Some(value: T)

  /** A value or the error that prevented it. */
  datatype Result<+T, +E> = Success(value: T) | Failure(error: E)
}
