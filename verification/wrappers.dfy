/** The optional value used where the browser code reads something that may be absent. */
module Wrappers {
  datatype Option<+T> = None | Some(value: T)
}
