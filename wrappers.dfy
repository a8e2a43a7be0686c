/** The optional value used wherever the source returns `null` or may omit something. */
module Wrappers {

  datatype Option<+T> = None | Some(value: T)
}
