/** The optional result that replaces the source's null pointers. */
module Wrappers {

  datatype Option<+T> = None | Some(value: T)
}
