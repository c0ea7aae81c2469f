/** The optional-value and outcome datatypes shared by every module of the model. */
module Wrappers {

  datatype Option<+T> = None | Some(value: T) {

    /** The value of a Some, or the given default for None. */
    function GetOr(default: T): T {
      match this
      case Some(v) => v
      case None => default
    }
  }

  /** The outcome of a call that can throw: its value, or the exception propagating. */
  datatype Outcome<+T> = Done(value: T) | Threw
}
