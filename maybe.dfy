/** The optional value used where a JavaScript value may be absent
    (`undefined` or `null` stand for `None`). */
module Maybe {
  datatype Option<T> = None | Some(value: T)
  {
    function GetOr(default: T): T
    {
      match this
      case Some(v) => v
      case None => default
    }
  }
}
