/** An optional value: a field of an update object that may be absent. */
module Wrappers {

  datatype Option<+T> = None | Some(value: T)
}
