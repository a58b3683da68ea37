/** An optional value: the result of an OS call that may deliver nothing. */
module Wrappers {

  datatype Option<+T> = None | Some(value: T)
}
