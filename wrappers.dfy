/** The optional value used by the decoders of this model. */
module Wrappers {

  /** Either no value, or a value of type T. */
  datatype Option<+T> = None | Some(value: T)
}
