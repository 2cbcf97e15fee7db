/** An optional value: `None` stands for a JavaScript property or argument
    that is `undefined`, which is exactly when a destructuring default applies. */
module Wrappers {

  datatype Option<+T> = None | Some(value: T) {

    /** The value if present, otherwise the given default (the `= default` of a pattern). */
    function GetOr(default: T): (r: T)
      ensures Some? ==> r == value
      ensures None? ==> r == default
    {
      match this
      case Some(v) => v
      case None => default
    }
  }
}
