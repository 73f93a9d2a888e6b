/** The optional value used wherever the page script works with `null`. */
module Wrappers {
  datatype Option<+T> = None | Some(value: T)
}
