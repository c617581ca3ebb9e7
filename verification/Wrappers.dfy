/** The two failure-compatible types every module uses. */
module Wrappers {
  datatype Option<+T> = None | Some(value: T)

  /** A value, or the message of the error that prevented it. */
  datatype Result<+T> = Ok(value: T) | Err(error: string) {
    predicate IsFailure() {
      Err?
    }

    function PropagateFailure<U>(): Result<U>
      requires Err?
    {
      Err(error)
    }

    function Extract(): T
      requires Ok?
    {
      value
    }
  }
}
