/** The optional value used for JSON fields that a request or a stored record may omit. */
module Wrappers {

  datatype Option<+T> = None | Some(value: T) {

    /** The value, or `default` when absent: the JavaScript `x || 0` idiom on a missing number. */
    function GetOr(default: T): T {
      match this
      case Some(v) => v
      case None => default
    }
  }
}
