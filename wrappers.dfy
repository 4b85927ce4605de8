/** A value that may be absent: a null pointer or reference in the source. */
module Wrappers {

  datatype Option<+T> = None | Some(value: T)
}
