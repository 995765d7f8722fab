/** Failure-carrying results used for the errors the source raises. */
module Wrappers {

  datatype Option<+T> = None | Some(value: T)

  /** An exception of the source becomes `Err`; `:-` passes it on. */
  datatype Result<+T, +E> = Ok(value: T) | Err(error: E)
  {
    predicate IsFailure() {
      Err?
    }

    function PropagateFailure<U>(): Result<U, E>
      requires Err?
    {
      Err(error)
    }

    function Extract(): T
      requires Ok?
    {
      value
    }
  }
}
