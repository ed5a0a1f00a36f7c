/** A value that may be absent: a missing request field, an absent `error.message`. */
module Wrappers {

  datatype Option<+T> = None | Some(value: T)
}
