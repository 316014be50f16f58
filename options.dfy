/** The optional value used wherever the Python code reads `dict.get(key)`
    or returns `None`. */
module Options {

  datatype Option<T> = None | Some(value: T) {

    /** `value if value is not None else default` */
    function GetOr(default: T): T {
      match this
      case Some(v) => v
      case None => default
    }
  }
}
