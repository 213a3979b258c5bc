/** The optional value used wherever the firmware has a null pointer or an early return. */
module Wrappers {

  datatype Option<+T> = None | Some(value: T)
}
