/** The optional-value datatype used for a message attribute that may be absent. */
module Wrappers {

  datatype Option<+T> = None | Some(value: T)
}
