/** The optional result of the table lookups. */
module Wrappers {

  datatype Option<+T> = None | Some(value: T)
}
