/** The optional value used for lookups that may miss and for the raising paths of the source. */
module Wrappers {
  datatype Option<+T> = None | Some(value: T)
}
