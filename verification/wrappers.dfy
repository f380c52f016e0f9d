/** Option, for lookups and probes that may find nothing. */
module Wrappers {
  datatype Option<+T> = None | Some(value: T)
}
