/** Failure-compatible wrappers used by every handler of the model. */
module Results {

  /** A value that may be absent (a field of a reply dictionary that is not set). */
  datatype Option<+T> = None | Some(value: T)

  /** The outcome of a computation that may raise: Python's exception becomes `Failure`. */
  datatype Result<+T, +E> = Success(value: T) | Failure(error: E) {

    predicate IsFailure() {
      Failure?
    }

    function PropagateFailure<U>(): Result<U, E>
      requires Failure?
    {
      Failure(error)
    }

    function Extract(): T
      requires Success?
    {
      value
    }
  }
}
