/** The optional value used by the nesting reference and by the command validator. */
module Wrappers {
  datatype Option<+T> = None | Some(value: T)
}
