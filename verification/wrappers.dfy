/** Optional values: `None` stands for the source's `undefined`. */
module Wrappers {

  datatype Option<T> = None | Some(value: T) {

    /** Nullish coalescing (`this ?? other`): this value when present, otherwise `other`. */
    function OrElse(other: Option<T>): (r: Option<T>)
      ensures Some? ==> r == this
      ensures None? ==> r == other
    {
      if Some? then this else other
    }

    /** The value when present, otherwise `default`. */
    function GetOr(default: T): (r: T)
      ensures Some? ==> r == value
      ensures None? ==> r == default
    {
      if Some? then value else default
    }
  }
}
