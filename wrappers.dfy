/** The optional-value datatype used for absent request fields and environment variables. */
module Wrappers {

  datatype Option<+T> = None | Some(value: T)
}
