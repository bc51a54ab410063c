/** Failure-compatible values used across the model in place of Python's `None` results. */
module Wrappers {

  datatype Option<+T> = None | Some(value: T)
}
