/** Failure-compatible wrappers used for the null returns and the exceptions
    of the modelled code. */
module Wrappers {

  /** A Kotlin nullable value, or a Java reference that may be null. */
  datatype Option<+T> = None | Some(value: T)

  /** A value or the exception that the source throws instead of returning it. */
  datatype Result<+R, +E> = Success(value: R) | Failure(error: E) {

    predicate IsFailure() {
      Failure?
    }

    function PropagateFailure<U>(): Result<U, E>
      requires Failure?
    {
      Failure(error)
    }

    function Extract(): R
      requires Success?
    {
      value
    }
  }

  /** A check that either passes or throws. */
  datatype Outcome<+E> = Pass | Fail(error: E) {

    predicate IsFailure() {
      Fail?
    }

    function PropagateFailure(): Outcome<E>
      requires Fail?
    {
      this
    }
  }
}
