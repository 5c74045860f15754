/** An optional value: an unset CSS offset, an absent query parameter, a
    client point that cannot be read from an event. */
module Options {

  datatype Option<+T> = None | Some(value: T) {

    /** The value held, or `default` when there is none. */
    function GetOr(default: T): T {
      match this
      case Some(v) => v
      case None => default
    }
  }
}
