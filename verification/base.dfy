/** The optional value used wherever the bot stores Python's `None`. */
module Base {

  datatype Option<+T> = None | Some(value: T) {

    /** Returns the wrapped value, or `default` for `None`. */
    function GetOr(default: T): T {
      match this
      case Some(v) => v
      case None => default
    }
  }
}
