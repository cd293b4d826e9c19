/** The optional value used throughout the model for `undefined` results and nullable columns. */
module Wrappers {

  /** `None` stands for JavaScript's `undefined` (a missing row, a missing key) or SQL NULL. */
  datatype Option<+T> = None | Some(value: T) {

    /** Returns the value in `Some`, or `default` for `None`. */
    function GetOr(default: T): T {
      match this
      case Some(v) => v
      case None => default
    }
  }
}
