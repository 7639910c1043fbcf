/** A value that may be absent: the model of a JSON field that is `null` or
    `undefined` in a payload, and of a nullable React state slot. */
module Options {

  datatype Option<+T> = None | Some(value: T) {

    /** The `??` operator of the source: the value when present, else the fallback. */
    function GetOr(fallback: T): (r: T)
      ensures Some? ==> r == value
      ensures None? ==> r == fallback
    {
      match this
      case Some(v) => v
      case None => fallback
    }
  }
}
