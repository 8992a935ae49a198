/** The Some/None datatype used wherever the modelled code may find nothing
    (an absent key, an input that does not parse, a lookup that rejects). */
module Wrappers {

  datatype Option<+T> = None | Some(value: T) {

    /** The held value; `default` stands in when there is none. */
    function GetOr(default: T): T {
      match this
      case Some(v) => v
      case None => default
    }
  }
}
