/** An optional value: the model's stand-in for Python's None and for calls that raised. */
module Wrappers {

  datatype Option<+T> = None | Some(value: T) {

    /** The wrapped value, or `default` when there is none. */
    function GetOr(default: T): (v: T) {
      match this
      case Some(v) => v
      case None => default
    }
  }

  function Min(a: int, b: int): (m: int) {
    if a <= b then a else b
  }
}
