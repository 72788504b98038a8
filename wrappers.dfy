/** The optional value used for ids that are not assigned yet and for lookups
    that find nothing. */
module Wrappers {

  datatype Option<+T> = None | Some(value: T)
}
