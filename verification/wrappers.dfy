/** The optional value used for absent query parameters and for "not found". */
module Wrappers {

  datatype Option<+T> = None | Some(value: T)
}
