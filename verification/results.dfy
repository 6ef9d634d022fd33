/** Failure-compatible wrappers used throughout the model. A Python call that
    raises is modelled as an `Err` carrying what went wrong. */
module Results {

  /** Either a value or the reason the operation stopped. */
  datatype Result<+T, +E> = Ok(value: T) | Err(error: E) {

    predicate IsFailure() {
      Err?
    }

    function PropagateFailure<U>(): Result<U, E>
      requires Err?
    {
      Err(error)
    }

    function Extract(): T
      requires Ok?
    {
      value
    }
  }

  datatype Option<+T> = None | Some(value: T)
}
