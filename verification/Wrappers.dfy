/** The one sum type shared by the models: a value that may be absent (a null pointer, an end iterator). */
module Wrappers {
  datatype Option<+T> = None | Some(value: T)
}
