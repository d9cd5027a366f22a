/** The optional value used for TypeScript's `T | null` and `T | undefined`. */
module Wrappers {

  datatype Option<+T> = None | Some(value: T) {

    /** `x ?? d`: the value if there is one, otherwise the default. */
    function GetOr(default: T): T {
      match this
      case Some(v) => v
      case None => default
    }
  }
}
