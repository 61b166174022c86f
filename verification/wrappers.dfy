/** Optional values and success/failure results, used for every lookup and
    for every operation of the model that can report an error. */
module Wrappers {

  /** A value that may be absent: a lookup that found nothing, a missing
      field of a request. */
  datatype Option<+T> = None | Some(value: T) {

    /** The value, or `default` when there is none. */
    function GetOr(default: T): T {
      match this
      case Some(v) => v
      case None => default
    }
  }

  /** The outcome of an operation that either produces a value or fails
      with an error that the caller receives instead. */
  datatype Result<+R, +E> = Success(value: R) | Failure(error: E) {

    /** With the two members below, lets `:-` pass a failure on. */
    predicate IsFailure() {
      Failure?
    }

    function PropagateFailure<U>(): Result<U, E>
      requires Failure?
    {
      Failure(error)
    }

    function Extract(): R
      requires Success?
    {
      value
    }
  }
}
