/** Failure-carrying return values. Every operation of the model that the
    JavaScript code can abort by throwing returns a `Result` whose `Err` case
    names the kind of error thrown; `Ok` carries the new state. */
module Results {

  /** A value that may be absent (`undefined` / not found). */
  datatype Option<+T> = None | Some(value: T)

  /** Either a value or the kind of error that was thrown instead. */
  datatype Result<+T, +E> = Ok(value: T) | Err(error: E) {

    predicate IsFailure() {
      Err?
    }

    function PropagateFailure<U>(): Result<U, E>
      requires Err?
    {
      Err(error)
    }

    function Extract(): T
      requires Ok?
    {
      value
    }
  }
}
