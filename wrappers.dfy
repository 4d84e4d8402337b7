/** The optional value shared by the game rules and the beat scheduler. */
module Wrappers {
  datatype Option<T> = None | Some(value: T)
}
