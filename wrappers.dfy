/** Failure-compatible result types used in place of Python exceptions and `None`. */
module Wrappers {

  datatype Option<+T> = None | Some(value: T)

  /** `Failure` stands for an exception raised by the modelled Python code. */
  datatype Result<+R, +E> = Success(value: R) | Failure(error: E) {
    predicate IsFailure() { Failure? }

    function PropagateFailure<U>(): Result<U, E>
      requires Failure?
    {
      Failure(error)
    }

    function Extract(): R
      requires Success?
    {
      value
    }
  }

  /** A result for operations that return nothing (Python `-> None`) but may raise. */
  datatype Outcome<+E> = Pass | Fail(error: E)
}
