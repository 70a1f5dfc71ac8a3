/** Option, used for values the source may leave undefined (a missing token, a failed verification). */
module Wrappers {
  datatype Option<+T> = None | Some(value: T)
}
