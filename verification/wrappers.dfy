/** The optional value used for every parse result: `None` is a parse failure. */
module Wrappers {

  datatype Option<+T> = None | Some(value: T)
}
