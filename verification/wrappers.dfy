/** Failure-carrying wrappers shared by every module of the model.

    A Python exception that the source lets propagate is modelled as an
    `Err` whose payload names the exception class, so that the error paths
    of the source stay visible in the model instead of being excluded by
    preconditions. */
module Wrappers {

  datatype Option<+T> = None | Some(value: T) {
    predicate IsFailure() { None? }

    function PropagateFailure<U>(): Option<U>
      requires None?
    {
      None
    }

    function Extract(): T
      requires Some?
    {
      value
    }
  }

  /** `Err(e)` stands for a raised exception of class `e`. */
  datatype Result<+T> = Ok(value: T) | Err(error: string) {
    predicate IsFailure() { Err? }

    function PropagateFailure<U>(): Result<U>
      requires Err?
    {
      Err(error)
    }

    function Extract(): T
      requires Ok?
    {
      value
    }
  }
}
