/** The optional value used wherever the source returns `null`/`undefined` or catches an exception. */
module Wrappers {
  datatype Option<+T> = None | Some(value: T)
}
