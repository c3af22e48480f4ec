/** Option and Result, with the members that let `:-` propagate a failure. */
module Wrappers {

  datatype Option<+T> = None | Some(value: T) {
    function GetOr(default: T): T {
      match this
      case Some(v) => v
      case None => default
    }
  }

  datatype Result<+R, +E> = Success(value: R) | Failure(error: E) {
    predicate IsFailure() {
      Failure?
    }

    function PropagateFailure<U>(): Result<U, E>
      requires Failure?
    {
      Failure(error)
    }

    function Extract(): R
      requires Success?
    {
      value
    }
  }

  /** The outcome of a step that returns nothing or raises. */
  datatype Outcome<+E> = Pass | Fail(error: E)
}

/** The Python exceptions the modelled code can raise, as values. */
module Faults {

  datatype Fault =
    | KeyError(key: string)              // subscripting a dict or a frame with a missing key
    | FileNotFoundError(column: string)  // reading a column file that was never written
    | AttributeError(name: string)       // calling a method an object does not have
    | TypeError(reason: string)          // hashing a list or dict, subscripting a store
    | ValueError(message: string)        // no handler for a configuration
    | DecompositionError                 // the seasonal decomposition refused its input
}
