/** Optional values, standing for the `undefined`/`null` cases of the source. */
module Wrappers {

  datatype Option<+T> = None | Some(value: T) {

    /** The `??` operator: the held value, or `default` when there is none. */
    function GetOr(default: T): T {
      match this
      case Some(v) => v
      case None => default
    }
  }
}
