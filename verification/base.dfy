/** Shared building blocks: an optional value (Python's `None` or a value). */
module Base {

  datatype Option<+T> = None | Some(value: T) {

    /** The value, or `default` when absent (`dict.get(key, default)`). */
    function GetOr(default: T): T {
      match this
      case Some(v) => v
      case None => default
    }
  }
}
