/** The usual optional value, used for the results of the decoders. */
module Wrappers {

  datatype Option<+T> = None | Some(value: T)
}
