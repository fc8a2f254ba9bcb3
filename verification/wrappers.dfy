/** Optional values: the model's rendering of C# nullable references and `T?`. */
module Wrappers {

  /** `None` stands for C#'s `null`. */
  datatype Option<+T> = None | Some(value: T) {

    /** The value, or `default` when there is none (C#'s `??`). */
    function GetOr(default: T): T {
      match this
      case Some(v) => v
      case None => default
    }
  }
}
