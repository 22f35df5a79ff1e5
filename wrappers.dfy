/** Lookups that the source answers with an exception for a missing key are
    modelled as an optional result. */
module Wrappers {
  datatype Option<+T> = None | Some(value: T)
}
