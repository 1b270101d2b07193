/** Failure-compatible wrappers shared by every module of the model. */
module Wrappers {

  /** A Java reference that may be null: `None` stands for null. */
  datatype Option<+T> = None | Some(value: T) {
    function GetOr(default: T): T {
      match this
      case Some(v) => v
      case None => default
    }
  }

  /**
   * The outcome of a Java call that may throw: it returns a value, throws an exception
   * created with `new Exception(message)`, fails on a list index out of bounds, or lets an
   * exception raised inside the SDK escape (its message is not modelled).
   */
  datatype Reply<+T> =
    | Returned(value: T)
    | Thrown(message: string)
    | IndexOutOfBounds(index: int)
    | Escaped
}
