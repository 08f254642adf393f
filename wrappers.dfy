/** Optional values and error-carrying results shared by every module. */
module Wrappers {
  /** A Kotlin `T?` or a Swift `T?`. */
  datatype Option<T> = None | Some(value: T)
  {
    /** Kotlin's `?:` / Swift's `??`: the value when present, else the fallback. */
    function GetOr(fallback: T): (r: T)
      ensures this.Some? ==> r == this.value
      ensures this.None? ==> r == fallback
    {
      match this
      case None => fallback
      case Some(v) => v
    }

    /** `a ?: b` where the fallback is itself optional. */
    function Or(other: Option<T>): (r: Option<T>)
      ensures this.Some? ==> r == this
      ensures this.None? ==> r == other
    {
      if this.Some? then this else other
    }
  }

  /** The outcome of an operation that may throw: the value, or the exception's message. */
  datatype Result<T> = Success(value: T) | Failure(error: string)
}
