/** Optional values and results with an error, the two shapes the Python code
    expresses with `None` and with raised exceptions. */
module Outcomes {

  datatype Option<T> = None | Some(value: T)

  /** A computation that either produced a value or raised an error. */
  datatype Result<T, E> = Ok(value: T) | Err(error: E) {

    predicate IsFailure() {
      Err?
    }

    function PropagateFailure<U>(): Result<U, E>
      requires Err?
    {
      Err(error)
    }

    function Extract(): T
      requires Ok?
    {
      value
    }
  }

  /** The Python exceptions the modelled code can raise; each ends the run. */
  datatype Exception =
    | AssertionError(what: string)
    | ValueError(what: string)
    | KeyError(key: string)
    | TypeError(what: string)
    | AttributeError(what: string)
    | UnboundLocalError(name: string)
    | OSError(what: string)
    | BaseException(what: string)
}
