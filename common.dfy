/** Python's "value or missing" idiom: `d.get(key)` yields None when the key is absent. */
module Common {

  datatype Option<+T> = None | Some(value: T) {

    /** `d.get(key, default)`: the value, or the default when it is missing. */
    function GetOr(default: T): T {
      match this
      case Some(v) => v
      case None => default
    }
  }

  /** Python truthiness of an optional string: None and "" are false. */
  predicate Truthy(s: Option<string>) {
    s.Some? && s.value != ""
  }
}
