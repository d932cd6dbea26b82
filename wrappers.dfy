/** Failure-compatible result types used in place of the source's exceptions. */
module Wrappers {

  datatype Option<+T> = None | Some(value: T)

  /** The outcome of an operation that either completes or fails with an error. */
  datatype Outcome<+E> = Pass | Fail(error: E)

  /** A value on success, an error on failure. */
  datatype Result<+R, +E> = Success(value: R) | Failure(error: E) {

    /** Forgets the success value. */
    function ToOutcome(): Outcome<E>
    {
      match this
      case Success(_) => Pass
      case Failure(e) => Fail(e)
    }

    /** The success value, or `default` on failure. */
    function GetOr(default: R): R
    {
      match this
      case Success(v) => v
      case Failure(_) => default
    }
  }
}
