/** The optional-value datatype used wherever the program returns None. */
module Wrappers {

  datatype Option<+T> = None | Some(value: T)

}
