/** Option and Result, used for absent table entries and for error returns. */
module Wrappers {

  datatype Option<+T> = None | Some(value: T)

  datatype Result<+T, +E> = Ok(value: T) | Err(error: E) {
    predicate IsFailure() {
      Err?
    }

    function PropagateFailure<U>(): Result<U, E>
      requires Err?
    {
      Err(this.error)
    }

    function Extract(): T
      requires Ok?
    {
      value
    }
  }
}
