/** The optional value used for configuration entries that may be undefined. */
module Wrappers {

  datatype Option<+T> = None | Some(value: T)
}
