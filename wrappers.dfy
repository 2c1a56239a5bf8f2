/** The optional value used for "no error" / "first error found". */
module Wrappers {
  datatype Option<+T> = None | Some(value: T)
}
