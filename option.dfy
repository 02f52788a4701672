/** Python's `None`: an explicit "unset" state that cannot collide with a
    legitimate falsy value such as `''` or `0`. */
module Optional {

  datatype Option<+T> = None | Some(value: T) {

    /** The value when set, the given default otherwise. */
    function GetOr(default: T): (r: T)
      ensures Some? ==> r == value
      ensures None? ==> r == default
    {
      match this
      case Some(v) => v
      case None => default
    }
  }
}
