/** The optional value used for the fields the fetch service may leave undefined. */
module Wrappers {
  datatype Option<+T> = None | Some(value: T)
}
