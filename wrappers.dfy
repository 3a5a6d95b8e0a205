/** A value that may be absent: JavaScript's `null`/`undefined` alternative. */
module Wrappers {

  datatype Option<+T> = None | Some(value: T)
}
