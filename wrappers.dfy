/** A value that may be absent: JavaScript's `null` versus a present value. */
module Wrappers {

  datatype Option<+T> = None | Some(value: T)
}
