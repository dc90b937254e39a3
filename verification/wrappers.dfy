/** The optional-value datatype used for Python's `None`. */
module Wrappers {

  /** `None` stands for Python's `None` (and for a missing pandas value). */
  datatype Option<+T> = None | Some(value: T)
}
