/** The optional-value datatype used for every "may be null / may be NaN" result of the model. */
module Wrappers {

  /** `None` stands for JavaScript's `null`, `NaN` or an invalid `Date`. */
  datatype Option<+T> = None | Some(value: T) {

    /** Returns the value, or `default` when there is none. */
    function GetOr(default: T): T {
      match this
      case Some(v) => v
      case None => default
    }
  }
}
