/** The optional value shared by the other modules: a nullable column or a missing argument. */
module Wrappers {
  datatype Option<+T> = None | Some(value: T)
}
