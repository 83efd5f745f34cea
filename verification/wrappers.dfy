/** `Option` and `Result`, shared by the other modules. */
module Wrappers {

  /** An optional value: Python's `None` or JavaScript's `null` versus a present value. */
  datatype Option<+T> = None | Some(value: T)

  /** A computation that either produced a value or raised an error. */
  datatype Result<+R, +E> = Success(value: R) | Failure(error: E)
}
