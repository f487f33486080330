/** The Option type used for the source's nullable fields and failed look-ups. */
module Wrappers {
  datatype Option<+T> = None | Some(value: T) {
    /** The value, or `default` for None. */
    function GetOr(default: T): T {
      match this
      case Some(v) => v
      case None => default
    }
  }
}
