/** Python's `None`-or-value, as it appears in dictionary lookups and optional attributes. */
module Optional {

  datatype Option<+T> = None | Some(value: T) {

    /** `x or default` for a value that is falsy only when absent. */
    function GetOr(default: T): T {
      match this
      case Some(v) => v
      case None => default
    }
  }
}
