/** The optional value used wherever the program may have nothing to give:
    a missing backing file, a failed transport, a null JSON field. */
module Wrappers {

  datatype Option<+T> = None | Some(value: T) {

    /** The value if present, otherwise `default`. */
    function GetOr(default: T): T {
      match this
      case Some(v) => v
      case None => default
    }
  }
}
