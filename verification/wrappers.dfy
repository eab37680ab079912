/** The optional value used for the session's nullable fields. */
module Wrappers {

  datatype Option<+T> = None | Some(value: T)
}
