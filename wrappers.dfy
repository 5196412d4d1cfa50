/** The optional-value datatype used throughout the model. */
module Wrappers {

  /** `None` stands for Python's `None` or for an operation that gave up. */
  datatype Option<+T> = None | Some(value: T)
}
