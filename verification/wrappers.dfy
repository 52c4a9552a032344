/** Optional values and results that may carry an error, usable with `:-`.
    A `Failure` stands for a JavaScript exception: the first one raised
    aborts the computation and is propagated unchanged. */
module Wrappers {

  /** `None` plays the role of JavaScript's `undefined`. */
  datatype Option<+T> = None | Some(value: T)

  datatype Result<+R, +E> = Success(value: R) | Failure(error: E) {

    predicate IsFailure() {
      Failure?
    }

    function PropagateFailure<U>(): Result<U, E>
      requires Failure?
    {
      Failure(error)
    }

    function Extract(): R
      requires Success?
    {
      value
    }
  }
}
