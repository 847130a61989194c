/** The optional value used wherever the program works with a value that may be absent
    (a missing JSON key, a failed query, a regular expression that did not match). */
module Wrappers {

  datatype Option<+T> = None | Some(value: T) {

    /** The value held, or `default` when there is none (Python's `d.get(key, default)`). */
    function GetOr(default: T): T {
      match this
      case Some(v) => v
      case None => default
    }
  }
}
