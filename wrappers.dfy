/** Option and Result values used for the error paths of every component. */
module Wrappers {

  datatype Option<+T> = None | Some(value: T)

  /** Either a value or the exception the source raises or throws. */
  datatype Result<+T, +E> = Ok(value: T) | Err(error: E) {
    predicate IsFailure() { Err? }

    function PropagateFailure<U>(): Result<U, E>
      requires Err?
    {
      Err(error)
    }

    function Extract(): T
      requires Ok?
    {
      value
    }
  }
}
