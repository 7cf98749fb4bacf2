/** The optional value used wherever the matcher may produce nothing. */
module Wrappers {

  datatype Option<+T> = None | Some(value: T)
}
