/** The optional value used for a file that may not open and a line that may not parse. */
module Wrappers {

  datatype Option<+T> = None | Some(value: T)
}
