/** Optional values: the model's stand-in for a TypeScript `T | undefined`. */
module Optional {

  /** `None` plays the part of `undefined`. */
  datatype Option<+T> = None | Some(value: T) {

    /** The wrapped value, or `default` when there is none (the `x ?? default` idiom). */
    function GetOr(default: T): T {
      match this
      case Some(v) => v
      case None => default
    }
  }
}
