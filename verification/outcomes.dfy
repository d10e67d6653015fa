/** Option and Result values used for every operation that can fail. */
module Outcomes {

  datatype Option<+T> = None | Some(value: T)

  /** `Err` stands for a Python exception raised by the operation. */
  datatype Result<+T, +E> = Ok(value: T) | Err(error: E) {
    predicate IsFailure() { Err? }

    function PropagateFailure<U>(): Result<U, E>
      requires Err?
    {
      Err(error)
    }

    function Extract(): T
      requires Ok?
    {
      value
    }
  }
}
