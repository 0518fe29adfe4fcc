/** Option, used where the source returns a nil value or an error that aborts the operation. */
module Wrappers {

  datatype Option<+T> = None | Some(value: T)
}
