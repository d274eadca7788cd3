/** A value that may be missing: a SELECT's None, a nullable column. */
module Wrappers {

  datatype Option<+T> = None | Some(value: T)
}
