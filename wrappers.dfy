/** Option and Result, used for nullable values and for operations that fail. */
module Wrappers {
  datatype Option<T> = None | Some(value: T)
  {
    /** JavaScript's `x ?? d` when `x` may be null or undefined. */
    function OrElse(d: T): T
    {
      if Some? then value else d
    }
  }

  datatype Result<T, E> = Success(value: T) | Failure(error: E)
}
