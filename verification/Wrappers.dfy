/** The optional value used in place of the program's nil pointers and SQL NULLs. */
module Wrappers {
  datatype Option<+T> = None | Some(value: T)
}
