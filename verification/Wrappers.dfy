/** A value that may be absent. */
module Wrappers {
  datatype Option<+T> = None | Some(value: T)
  {
    function Or(fallback: Option<T>): Option<T> {
      if Some? then this else fallback
    }
  }
}
