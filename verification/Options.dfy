/** The type of optional fields and lookup results. */
module Options {
  datatype Option<+T> = None | Some(value: T)

  /** `override ?? base` for a base that may itself be absent. */
  function OrElse<T>(override: Option<T>, base: Option<T>): Option<T> {
    if override.Some? then override else base
  }

  /** `override ?? base` */
  function GetOr<T>(override: Option<T>, base: T): T {
    if override.Some? then override.value else base
  }
}
