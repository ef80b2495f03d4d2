/** The optional value used where the script gets `None` back or catches a
    parse error. */
module Wrappers {

  datatype Option<+T> = None | Some(value: T)
}
