/** Failure-carrying wrappers shared by the atlas pipeline and the byte buffer. */
module Results {

  datatype Option<+T> = None | Some(value: T)

  /** The value of a computation that either returned or threw. */
  datatype Result<+T, +E> = Success(value: T) | Failure(error: E) {
    predicate IsFailure() { Failure? }

    function PropagateFailure<U>(): Result<U, E>
      requires Failure?
    {
      Failure(error)
    }

    function Extract(): T
      requires Success?
    {
      value
    }
  }

  /** A check that either returns normally or throws. */
  datatype Outcome<+E> = Pass | Fail(error: E)
}
