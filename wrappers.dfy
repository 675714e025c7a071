/** The optional value used wherever the source relies on `undefined`. */
module Wrappers {
  datatype Option<+T> = None | Some(value: T)
}
