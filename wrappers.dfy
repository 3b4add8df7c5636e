/** The nullable values of the source (Java references, JavaScript null/undefined)
    are modelled with Option. */
module Wrappers {

  datatype Option<+T> = None | Some(value: T) {

    /** The stored value, or `default` when the reference is null */
    function GetOr(default: T): T {
      match this
      case Some(v) => v
      case None => default
    }
  }
}
