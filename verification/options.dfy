/** An optional value, standing for a TypeScript `T | undefined` (or `T | null`). */
module Options {

  datatype Option<T> = None | Some(value: T) {

    /** The wrapped value, or `default` when there is none (the `??` operator). */
    function GetOr(default: T): T {
      match this
      case Some(v) => v
      case None => default
    }
  }
}
