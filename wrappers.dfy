/** Option and Result values standing in for Python's `None` and for raised exceptions. */
module Wrappers {

  /** `None` or a present value, as Python's `Optional[...]`. */
  datatype Option<+T> = None | Some(value: T)

  /** The value of an operation that either returns or raises. */
  datatype Result<+T, +E> = Success(value: T) | Failure(error: E)
}
