/** Option and Result, the failure-compatible wrappers used across the model. */
module Wrappers {

  /** `None` stands for JavaScript's `undefined` (or `null` where stated). */
  datatype Option<+T> = None | Some(value: T)

  /** A resolver either returns a value or throws; `Failure` is the throw. */
  datatype Result<+T, +E> = Success(value: T) | Failure(error: E) {
    predicate IsFailure() {
      Failure?
    }

    function PropagateFailure<U>(): Result<U, E>
      requires Failure?
    {
      Failure(error)
    }

    function Extract(): T
      requires Success?
    {
      value
    }
  }
}
