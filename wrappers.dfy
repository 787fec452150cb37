/** The optional value used wherever the relay reads a nullable or possibly absent value. */
module Wrappers {

  datatype Option<+T> = None | Some(value: T)
}
