/** The optional value used across the model (a nil pointer, an absent field, no engine call). */
module Wrappers {

  datatype Option<+T> = None | Some(value: T)
}
