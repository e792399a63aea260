/** The optional value the TypeScript code expresses with `undefined`,
    `T | null` and optional fields (`files?`, `previous?`). */
module Wrappers {

  datatype Option<+T> = None | Some(value: T) {

    /** The `x || d` / `x ?? d` defaulting idiom. */
    function GetOr(default: T): T {
      match this
      case Some(v) => v
      case None => default
    }
  }
}
