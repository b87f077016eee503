/** Optional values: `None` stands for a JavaScript value that is absent (`undefined`, `null`)
    or, for a parsed number, `NaN`. */
module Wrappers {

  datatype Option<+T> = None | Some(value: T) {

    /** The value, or `default` when there is none (JavaScript's `??`). */
    function GetOr(default: T): T {
      match this
      case Some(v) => v
      case None => default
    }
  }
}
