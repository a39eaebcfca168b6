/** The optional value used for lookups that may fail and for the classifier's outcome. */
module Wrappers {

  datatype Option<+T> = None | Some(value: T)
}
