/** Option and Result values: the model's stand-in for Python's None and for
    exceptions that propagate out of a call. */
module Outcomes {

  datatype Option<T> = None | Some(value: T) {

    /** The value, or `default` when there is none (Python's `d.get(k, default)`). */
    function GetOr(default: T): T {
      match this
      case Some(v) => v
      case None => default
    }
  }

  /** `Err` is a raised exception: it carries what was raised and no value. */
  datatype Result<T, E> = Ok(value: T) | Err(error: E)
}
