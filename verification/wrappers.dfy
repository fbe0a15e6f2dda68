/** Failure-compatible option type shared by the lookups and readers of this model. */
module Wrappers {

  datatype Option<+T> = None | Some(value: T)
}
