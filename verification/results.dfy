/** Failure-compatible wrappers used throughout the model. */
module Results {

  /** A value that may be absent: the model's counterpart of Python's `None`. */
  datatype Option<+T> = None | Some(value: T)

  /** The outcome of a step that either yields a value or stops with an error. */
  datatype Result<+T, +E> = Success(value: T) | Failure(error: E) {

    predicate IsFailure() {
      Failure?
    }

    function PropagateFailure<U>(): Result<U, E>
      requires Failure?
    {
      Failure(error)
    }

    function Extract(): T
      requires Success?
    {
      value
    }

    /** Re-labels the error, keeping a success as it is. */
    function MapFailure<E2>(relabel: E -> E2): Result<T, E2>
    {
      match this
      case Success(v) => Success(v)
      case Failure(e) => Failure(relabel(e))
    }
  }
}
