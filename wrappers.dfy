/** Failure-compatible wrappers used across the model: an optional value, a
    value-or-error result, and a pass-or-error outcome for operations that
    return nothing but may throw. */
module Wrappers {

  datatype Option<+T> = None | Some(value: T) {
    /** The value, or `default` when there is none (a JavaScript default parameter). */
    function GetOr(default: T): T {
      match this
      case Some(v) => v
      case None => default
    }
  }

  datatype Result<+R, +E> = Success(value: R) | Failure(error: E) {
    predicate IsFailure() {
      Failure?
    }

    function PropagateFailure<U>(): Result<U, E>
      requires Failure?
    {
      Failure(error)
    }

    function Extract(): R
      requires Success?
    {
      value
    }
  }

  /** What an `async` action that returns nothing settles to: it resolves, or it rejects with `error`. */
  datatype Outcome<+E> = Pass | Fail(error: E)
}
