/** Failure-compatible wrappers used throughout the model. */
module Wrappers {

  /** An optional value: `None` stands for "absent" (an empty header,
      a query parameter that was not given, a parse or decode that failed). */
  datatype Option<+T> = None | Some(value: T)

  /** The outcome of an operation that may fail with an error of type `E`. */
  datatype Result<+R, +E> = Success(value: R) | Failure(error: E) {
    predicate IsFailure() {
      Failure?
    }

    function PropagateFailure<U>(): Result<U, E>
      requires Failure?
    {
      Failure(error)
    }

    function Extract(): R
      requires Success?
    {
      value
    }
  }
}
