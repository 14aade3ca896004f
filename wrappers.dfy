/** The absent-or-present value used where the source accepts a null collection. */
module Wrappers {

  datatype Option<+T> = None | Some(value: T)
}
