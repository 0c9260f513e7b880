/** Small helper datatypes shared by the travel-planner model: an optional value, a
    value-or-exception result, and the Python exceptions the planner's code can raise. */
module Wrappers {

  datatype Option<+T> = None | Some(value: T) {
    function GetOr(default: T): T {
      match this
      case Some(v) => v
      case None => default
    }
  }

  /** The exceptions the modelled code can raise; none of them is caught in the planner,
      so each one ends the planning request. */
  datatype Exception =
    | ZeroDivisionError  // `i % len(times)` with no time slots
    | IndexError         // `[0]` on an empty list
    | KeyError           // `["..."]` on a dict without that key

  /** Either the value a computation returns or the exception it raises. */
  datatype Result<+T> = Ok(value: T) | Err(error: Exception) {
    predicate IsFailure() {
      Err?
    }

    function PropagateFailure<U>(): Result<U>
      requires Err?
    {
      Err(error)
    }

    function Extract(): T
      requires Ok?
    {
      value
    }
  }
}
