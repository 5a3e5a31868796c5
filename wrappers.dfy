/** The optional-value datatype shared by every module of the model. */
module Wrappers {

  /** `None` stands for TypeScript's `null`/`undefined`, `Some(v)` for a present value. */
  datatype Option<+T> = None | Some(value: T) {

    /** Returns the encapsulated value or `default` when there is none (the `??` operator). */
    function GetOr(default: T): T
    {
      match this
      case Some(v) => v
      case None => default
    }
  }
}
