/** Optional values: models TypeScript's `T | null`, `T | undefined` and the
    absent fields of a `Partial<T>`. */
module Wrappers {

  datatype Option<+T> = None | Some(value: T) {

    /** The wrapped value, or `default` when absent (the `??` / `||` fallbacks). */
    function GetOr(default: T): T {
      match this
      case Some(v) => v
      case None => default
    }
  }
}
