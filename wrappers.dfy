/** Optional values and results with an error, standing in for C# null returns and thrown exceptions. */
module Wrappers {

  /** `None` plays the part of a C# null reference. */
  datatype Option<+T> = None | Some(value: T)

  /** `Failure` plays the part of an exception thrown out of a query. */
  datatype Result<+R, +E> = Success(value: R) | Failure(error: E)
}
