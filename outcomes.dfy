/** Option and Result values for the error paths of the modelled code. */
module Outcomes {

  datatype Option<+T> = None | Some(value: T)

  /** The outcome of an operation that either produces a value or fails with a message. */
  datatype Result<+T> = Success(value: T) | Failure(error: string)
}
