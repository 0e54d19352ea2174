/** The optional value used for storage slots that may be empty and for
    lookups that may find nothing. */
module Wrappers {
  datatype Option<+T> = None | Some(value: T)
}
