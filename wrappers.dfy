/** The optional value shared by the piece record, the board and the clock. */
module Wrappers {

  datatype Option<T> = None | Some(value: T)
}
