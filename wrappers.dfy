/** The optional value used for "no port found" and "no hand in this frame". */
module Wrappers {

  datatype Option<T> = None | Some(value: T)
}
