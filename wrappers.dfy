/** Optional values: `None` stands for PHP's `FALSE`/`null` where the
    validator uses those as "no value". */
module Wrappers {

  datatype Option<+T> = None | Some(value: T) {

    /** The held value, or `default` when there is none. */
    function GetOr(default: T): T {
      match this
      case Some(v) => v
      case None => default
    }
  }
}
