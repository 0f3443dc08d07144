/** The optional-value datatype used throughout the model: Go's nil pointers and
    interfaces are `None`. */
module Wrappers {

  datatype Option<+T> = None | Some(value: T)
}
