/**
 A value that may be absent: `null`, `undefined`, a missing key or a thrown exception.
 */
module Wrappers {
  datatype Option<+T> = None | Some(value: T)
}
