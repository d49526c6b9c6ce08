/** Failure-compatible result and optional-value types shared by the models. */
module Results {

  /** A value that may be absent: the model of a `null`/`undefined` field. */
  datatype Option<+T> = None | Some(value: T)

  /** Either the value an operation produced or the error it raised. */
  datatype Result<+T, +E> = Ok(value: T) | Err(error: E) {

    predicate IsFailure() {
      Err?
    }

    function PropagateFailure<U>(): Result<U, E>
      requires Err?
    {
      Err(error)
    }

    function Extract(): T
      requires Ok?
    {
      value
    }
  }
}
