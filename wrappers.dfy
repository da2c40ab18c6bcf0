/** JavaScript's "value or undefined/null", as an explicit datatype. */
module Wrappers {

  datatype Option<T> = None | Some(value: T) {

    /** The carried value, or `default` when there is none (JavaScript's `x || default`
      * for values that are objects, hence always truthy). */
    function GetOr(default: T): T {
      match this
      case Some(v) => v
      case None => default
    }
  }
}
