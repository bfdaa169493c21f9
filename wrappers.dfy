/** Option and Result values, standing for Ruby's nil and for raised exceptions. */
module Wrappers {
  datatype Option<T> = None | Some(value: T)
  {
    /** The value, or `default` in place of nil (Ruby's `x || default`). */
    function GetOr(default: T): T
    {
      match this
      case None => default
      case Some(v) => v
    }
  }

  /** `Err` models an exception raised by the source, which nothing in the core rescues. */
  datatype Result<T> = Ok(value: T) | Err(error: string)
}
