/** Optional values: JavaScript's `null`/`undefined` on a lookup or a field that may be unset. */
module Wrappers {
  datatype Option<T> = None | Some(value: T)
  {
    function GetOr(default: T): T
    {
      match this
      case None => default
      case Some(v) => v
    }
  }
}
