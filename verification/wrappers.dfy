/** The optional-value type used wherever the program reads something that may be absent. */
module Wrappers {

  /** `None` stands for Python's `None`: an unset variable, a read that raised. */
  datatype Option<+T> = None | Some(value: T)
}
