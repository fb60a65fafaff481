/** Option and Result, the failure-compatible wrappers the rest of the model returns. */
module Wrappers {

  datatype Option<+T> = None | Some(value: T)

  /** Either a value or the exception the Python code would raise instead. */
  datatype Result<+T, +E> = Success(value: T) | Failure(error: E) {
    predicate IsFailure() { Failure? }

    function PropagateFailure<U>(): Result<U, E>
      requires Failure?
    {
      Failure(error)
    }

    function Extract(): T
      requires Success?
    {
      value
    }
  }

  /** A call that returns nothing useful, or raises. */
  datatype Outcome<+E> = Pass | Fail(error: E)
}
