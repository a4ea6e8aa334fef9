/** Failure-compatible result types shared by the modules of the model. */
module Wrappers {

  /** A value that may be absent: a map miss, a failed parse, an unknown token. */
  datatype Option<+T> = None | Some(value: T)
}
