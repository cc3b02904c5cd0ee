/** An optional value: `None` stands for a JavaScript `null`/`undefined`
    or for a key that is absent from a partial record. */
module Optional {

  datatype Option<+T> = None | Some(value: T) {

    /** The wrapped value, or `default` when there is none: JavaScript's
        `x ?? default`, and also `x || default` whenever the wrapped value
        cannot be falsy. */
    function GetOr(default: T): T {
      match this
      case Some(v) => v
      case None => default
    }
  }
}
