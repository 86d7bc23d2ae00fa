/** The one failure-compatible wrapper the model needs. */
module Wrappers {

  /** Some(v) for a value that was produced, None for an input the source rejects. */
  datatype Option<+T> = None | Some(value: T)
}
