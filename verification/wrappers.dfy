/** Failure-compatible wrappers shared by the solver modules. */
module Wrappers {

  /** An optional value; `None` stands for the source's `None` parent. */
  datatype Option<+T> = None | Some(value: T)

  /** Either a value or the error the source would raise instead. */
  datatype Result<+R, +E> = Success(value: R) | Failure(error: E)
}
