/** Small failure-carrying datatypes shared by the rest of the model. */
module Wrappers {

  /** A value that may be absent: an unset setting, an undefined field. */
  datatype Option<+T> = None | Some(value: T) {
    function GetOr(default: T): T {
      match this
      case Some(v) => v
      case None => default
    }
  }

  /** The outcome of reading a host setting: the host API either answers or throws
      (for instance before the game system has registered its keys). */
  datatype Lookup<+T> = Threw | Got(value: T)
}
