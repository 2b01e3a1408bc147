/** Go's `(value, error)` returns: an error is its message text, as produced by
    `fmt.Errorf` and `errors.New` in the Go code. */
module Outcome {

  datatype Option<T> = None | Some(value: T)

  datatype Result<T> = Ok(value: T) | Err(msg: string) {
    predicate IsFailure() { Err? }
    function PropagateFailure<U>(): Result<U>
      requires Err?
    {
      Err(msg)
    }
    function Extract(): T
      requires Ok?
    {
      value
    }
  }

  /** A call that returns only `error`: None is nil. */
  type Status = Option<string>

  const Success: Status := None
}
