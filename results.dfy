/** Failure-compatible wrappers used for the source's thrown errors and missing values. */
module Results {

  datatype Option<+T> = None | Some(value: T)

  /** A computation that either produces a value or fails with an error (a thrown `Error` in the source). */
  datatype Result<+T, +E> = Ok(value: T) | Err(error: E) {

    predicate IsFailure() {
      Err?
    }

    function PropagateFailure<U>(): Result<U, E>
      requires Err?
    {
      Err(error)
    }

    function Extract(): T
      requires Ok?
    {
      value
    }
  }
}
