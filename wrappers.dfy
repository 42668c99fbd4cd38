/** The optional value used for readings that may be missing and for state that starts undefined. */
module Wrappers {
  datatype Option<+T> = None | Some(value: T)
}
