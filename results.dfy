/** Option and Result, the two wrappers the rest of the model uses for
    "maybe absent" values and for operations that raise in the source. */
module Results {

  datatype Option<+T> = None | Some(value: T)

  /** A value or the error the source would raise instead of returning. */
  datatype Result<+T, +E> = Ok(value: T) | Err(error: E) {

    predicate IsFailure() {
      Err?
    }

    function PropagateFailure<U>(): Result<U, E>
      requires Err?
    {
      Err(error)
    }

    function Extract(): T
      requires Ok?
    {
      value
    }
  }
}
