/** Failure-carrying values shared by every module: Python's raised exceptions become `Err`. */
module Results {

  datatype Option<+T> = None | Some(value: T)

  /** The value of a computation that either returns or raises; `msg` is the exception's text. */
  datatype Result<+T> = Ok(value: T) | Err(msg: string) {
    predicate IsFailure() { Err? }

    function PropagateFailure<U>(): Result<U>
      requires Err?
    {
      Err(msg)
    }

    function Extract(): T
      requires Ok?
    {
      value
    }
  }

  /** The value of a check that returns nothing or raises. */
  datatype Outcome = Pass | Fail(msg: string)
}
