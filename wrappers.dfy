/** Optional values and results with an error, used wherever the Ruby code
    returns `nil` or raises. */
module Wrappers {

  datatype Option<+T> = None | Some(value: T) {
    function GetOr(default: T): T {
      match this
      case Some(v) => v
      case None => default
    }

    /** Ruby's `a || b` on a value that is either nil or present. */
    function Or(other: Option<T>): Option<T> {
      if Some? then this else other
    }
  }

  /** `Err` carries the name of the Ruby exception class that was raised. */
  datatype Result<+T> = Ok(value: T) | Err(error: string)

  function MapOption<T, U>(o: Option<T>, f: T -> U): Option<U> {
    match o
    case Some(v) => Some(f(v))
    case None => None
  }
}
