/** The optional-value wrapper used throughout the model: a JavaScript
    `null`, a Python `None` or a query parameter that is absent. */
module Options {

  datatype Option<+T> = None | Some(value: T) {

    /** The wrapped value, or `default` when there is none. */
    function GetOr(default: T): T {
      match this
      case Some(v) => v
      case None => default
    }
  }
}
