/** Failure-compatible wrappers shared by the modules of the model. */
module Common {

  /** Python's `None` or a value: what `dict.get` returns. */
  datatype Option<+T> = None | Some(value: T)

  /** The value of an operation that either returns or raises. */
  datatype Result<+T, +E> = Success(value: T) | Failure(error: E)

  /** An operation that returns nothing, or raises. */
  datatype Outcome<+E> = Pass | Fail(error: E)
}
