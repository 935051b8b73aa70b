/** The optional value used for the descriptor's optional rule fields and for
    the "accepted input or nothing" result of gathering the form's fields. */
module Wrappers {

  datatype Option<+T> = None | Some(value: T)
}
