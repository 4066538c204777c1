/** Option and Result datatypes shared by the scheduler modules. */
module Wrappers {

  /** A value that may be absent: Python's `None` or a real object. */
  datatype Option<+T> = None | Some(value: T)

  /** The outcome of an operation that may raise. */
  datatype Result<+R, +E> = Success(value: R) | Failure(error: E)
}
