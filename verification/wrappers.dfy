/** Optional values, used wherever the manifest model has an absent field. */
module Wrappers {

  datatype Option<+T> = None | Some(value: T) {

    /** Returns the value held in Some, or `default` when None. */
    function GetOr(default: T): T
    {
      match this
      case Some(v) => v
      case None => default
    }

    /** This value if present, otherwise `other`. */
    function Or(other: Option<T>): Option<T>
    {
      if Some? then this else other
    }
  }
}
