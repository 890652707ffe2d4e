/** The optional value used throughout the model for JavaScript's `null`/`undefined`. */
module Optional {
  datatype Option<+T> = None | Some(value: T) {
    function GetOr(default: T): T {
      match this
      case Some(v) => v
      case None => default
    }
  }

  /** `parseInt(attribute) || fallback`, with `None` standing for `NaN`: a
      parsed number other than 0 is kept, and `NaN` or 0 gives the
      fallback. */
  function IntOr(parsed: Option<int>, fallback: int): (r: int)
    ensures parsed.Some? && parsed.value != 0 ==> r == parsed.value
    ensures parsed.None? || parsed.value == 0 ==> r == fallback
  {
    if parsed.Some? && parsed.value != 0 then parsed.value else fallback
  }
}
