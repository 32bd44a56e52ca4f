/** The optional value used wherever the source reads a field that may be absent. */
module Wrappers {

  datatype Option<+T> = None | Some(value: T)
}
