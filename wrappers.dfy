/** Failure-compatible helper types shared by the whole model. */
module Wrappers {

  /** Python's `Optional[T]`: `None` or a value. */
  datatype Option<+T> = None | Some(value: T)

  /** The outcome of an operation that may raise: its value or the exception it raises. */
  datatype Result<+T, +E> = Success(value: T) | Failure(error: E)

  /** The Python exceptions raised by the modelled code. */
  datatype Error =
    | ValueError(message: string)
    | NotImplementedError(message: string)
    | TypeError(message: string)
}
