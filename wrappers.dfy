/** The optional values of the model: a JSON field that may be absent. */
module Wrappers {

  datatype Option<+T> = None | Some(value: T) {

    /** The value held, or `default` when absent (JavaScript's `x || default`
        for a field whose present values are all truthy). */
    function GetOr(default: T): T {
      match this
      case Some(v) => v
      case None => default
    }
  }
}
