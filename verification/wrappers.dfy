/** The optional value used for a field's error and for a number that a
    text may or may not denote. */
module Wrappers {

  datatype Option<+T> = None | Some(value: T)
}
