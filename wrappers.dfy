/** Option and Result values standing for C# nulls and thrown exceptions. */
module Wrappers {

  /** A C# reference that may be null: `None` is null. */
  datatype Option<+T> = None | Some(value: T)

  /** The value of an operation that may throw: `Failure` carries the exception. */
  datatype Result<+R, +E> = Success(value: R) | Failure(error: E) {
    predicate IsFailure() {
      Failure?
    }

    function PropagateFailure<U>(): Result<U, E>
      requires Failure?
    {
      Failure(error)
    }

    function Extract(): R
      requires Success?
    {
      value
    }
  }

  /** An operation that returns nothing but may throw. */
  datatype Outcome<+E> = Pass | Fail(error: E)
}
