/** Failure-carrying wrappers shared by every module of the model. */
module Wrappers {

  /** An optional value: stands for Go's nil-able pointers (`*string`)
      and for an `error` that may be nil. */
  datatype Option<+T> = None | Some(value: T)

  /** The outcome of a fallible step: a value, or the error it failed with. */
  datatype Result<+R, +E> = Success(value: R) | Failure(error: E)

  /** A Go `error` value, reduced to its message. */
  datatype Error = Error(message: string)
}
