/** The Some/None datatype used for absent keys, unparseable input and
    failed replies throughout the model. */
module Optional {

  datatype Option<+T> = None | Some(value: T) {

    /** Returns the value inside Some, or the given default. */
    function GetOr(default: T): T {
      match this
      case Some(v) => v
      case None => default
    }
  }
}
