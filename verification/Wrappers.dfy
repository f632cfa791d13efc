/** The stock datatype for absent values. */
module Wrappers {
  datatype Option<+T> = None | Some(value: T)
}
