/** The optional value used for storage reads, the open menu and the rename row. */
module Wrappers {
  datatype Option<+T> = None | Some(value: T)
}
