/** Optional values: a field or argument that the TypeScript source marks `?` or
    that can be `undefined`/`null`, and the NaN outcome of `parseInt`. */
module Wrappers {

  datatype Option<+T> = None | Some(value: T) {

    /** The value, or `default` when absent (the source's `x || default`
        where only absence is falsy). */
    function GetOr(default: T): T {
      match this
      case Some(v) => v
      case None => default
    }
  }
}
