/** The optional value used for form errors and for the stored theme. */
module Wrappers {

  datatype Option<+T> = None | Some(value: T)
}
