/** The value that stands for a result that may be missing: an exception, `None`, an error. */
module Wrappers {
  datatype Option<+T> = None | Some(value: T)
}
