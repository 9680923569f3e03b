/** Failure-carrying wrappers used where the front end throws. */
module Results {

  datatype Option<+T> = None | Some(value: T)

  /** The outcome of an operation that may abort with an error. */
  datatype Result<+T, +E> = Success(value: T) | Failure(error: E) {
    predicate IsFailure() { Failure? }

    function PropagateFailure<U>(): Result<U, E>
      requires Failure?
    {
      Failure(error)
    }

    function Extract(): T
      requires Success?
    {
      value
    }
  }
}
