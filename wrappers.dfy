/** Failure-compatible result and optional values shared by the preview modules. */
module Wrappers {

  datatype Option<+T> = None | Some(value: T)

  /** A value, or the error a JavaScript `throw` would have carried instead. */
  datatype Result<+T, +E> = Ok(value: T) | Err(error: E) {

    predicate IsFailure() {
      Err?
    }

    function PropagateFailure<U>(): Result<U, E>
      requires Err?
    {
      Err(error)
    }

    function Extract(): T
      requires Ok?
    {
      value
    }
  }

  function Min(a: int, b: int): int {
    if a <= b then a else b
  }
}
