/** Option and failure-compatible Result types shared by every module of the model. */
module Wrappers {

  datatype Option<+T> = None | Some(value: T)

  /**
   * The outcome of an operation the source can abort by throwing: `Ok` with
   * the value it returns, or `Err` naming the exception. Usable with `:-`.
   */
  datatype Result<+T, +E> = Ok(value: T) | Err(error: E) {

    predicate IsFailure() {
      Err?
    }

    function PropagateFailure<U>(): Result<U, E>
      requires Err?
    {
      Err(error)
    }

    function Extract(): T
      requires Ok?
    {
      value
    }
  }
}
