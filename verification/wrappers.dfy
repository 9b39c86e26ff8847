/** A value that may be missing, as returned by the parsers of this model. */
module Wrappers {

  /** A value that may be missing: `None` when a parse fails. */
  datatype Option<+T> = None | Some(value: T)
}
