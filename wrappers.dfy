/** The optional value used wherever the tracker returns `None` in place of a result. */
module Wrappers {

  datatype Option<+T> = None | Some(value: T)
}
