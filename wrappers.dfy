/** Small value wrappers shared by every module of the model. */
module Wrappers {
  /** A value that may be absent (Python `None`, JavaScript `null`/`undefined`). */
  datatype Option<T> = None | Some(value: T)
  {
    /** `x ?? d` in JavaScript, `x if x is not None else d` in Python. */
    function GetOr(default: T): (r: T)
      ensures this.Some? ==> r == this.value
      ensures this.None? ==> r == default
    {
      match this
      case Some(v) => v
      case None => default
    }
  }

  /**
   * One key of the browser's localStorage: nothing stored, text that does not
   * parse as the expected JSON shape, or a parsed value.
   */
  datatype Slot<T> = Absent | Corrupt | Present(value: T)
  {
    /** The parsed value, or `default` when nothing usable is stored. */
    function OrElse(default: T): (r: T)
      ensures this.Present? ==> r == this.value
      ensures !this.Present? ==> r == default
    {
      if this.Present? then this.value else default
    }
  }
}
