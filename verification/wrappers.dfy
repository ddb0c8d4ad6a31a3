/** The optional value used where the Swift code has `T?`. */
module Wrappers {

  datatype Option<+T> = None | Some(value: T)
}
