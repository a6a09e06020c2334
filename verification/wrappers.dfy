/** Option, standing in for the nullable references of the modelled Java code. */
module Wrappers {

  datatype Option<+T> = None | Some(value: T)
}
