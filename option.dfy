/** The optional value used wherever the source has a value that may be absent. */
module Options {

  datatype Option<T> = None | Some(value: T) {

    /** The value if present, otherwise `default` (JavaScript's `x || default`
        for values that are never falsy when present). */
    function GetOr(default: T): (r: T)
      ensures Some? ==> r == value
      ensures None? ==> r == default
    {
      match this
      case Some(v) => v
      case None => default
    }
  }
}
