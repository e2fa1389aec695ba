/** The optional-value datatype used across the model: a Go pointer, interface
    or slice that may be nil is modelled where it matters as an `Option`. */
module Wrappers {

  datatype Option<+T> = None | Some(value: T)

}
