/** The optional value a device's address decoding produces. */
module Wrappers {

  datatype Option<+T> = None | Some(value: T)
}
