/** The optional value used where the source relies on `undefined`. */
module Wrappers {

  datatype Option<+T> = None | Some(value: T)
}
