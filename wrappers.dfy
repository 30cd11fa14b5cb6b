/** Option and Result types shared by every module of the model. A Python
    exception that the model keeps is an `Err` carrying the exception's text. */
module Wrappers {

  datatype Option<+T> = None | Some(value: T) {
    function GetOr(default: T): T {
      match this
      case Some(v) => v
      case None => default
    }
  }

  datatype Result<+T> = Ok(value: T) | Err(error: string) {
    predicate IsFailure() {
      Err?
    }

    function PropagateFailure<U>(): Result<U>
      requires Err?
    {
      Err(error)
    }

    function Extract(): T
      requires Ok?
    {
      value
    }
  }

  /** Outcome of an operation that returns nothing but may raise. */
  datatype Status = Done | Fail(error: string) {
    predicate IsFailure() {
      Fail?
    }

    function PropagateFailure(): Status
      requires Fail?
    {
      this
    }
  }
}
