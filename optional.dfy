/** Python's `None`-or-value, as used for environment lookups and the
    `(result, error)` pairs returned by the Gemini caller. */
module Optional {

  datatype Option<+T> = None | Some(value: T) {

    /** The value, or `default` when there is none (Python's `d.get(k, default)`). */
    function GetOr(default: T): T {
      match this
      case Some(v) => v
      case None => default
    }
  }
}
