/** Small failure-carrying datatypes shared by the other modules. */
module Wrappers {

  /** A value that may be absent, Python's `None` or a value. */
  datatype Option<T> = None | Some(value: T)

  /** The way a Python call ends: it returns a value, or an exception escapes it with a message. */
  datatype Outcome<T> = Returned(value: T) | Raised(error: string)
}
