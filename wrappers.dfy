/** Optional values: a request field that may be missing, an upload that may
    yield no URL. */
module Wrappers {

  datatype Option<T> = None | Some(value: T)
  {
    /** `x || fallback` for a field that is either missing or present. */
    function GetOr(fallback: T): (r: T)
      ensures this.Some? ==> r == value
      ensures this.None? ==> r == fallback
    {
      match this
      case Some(v) => v
      case None => fallback
    }
  }
}
