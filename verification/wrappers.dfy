/** Option: either nothing (a check that passed) or a value (the first fault found). */
module Wrappers {
  datatype Option<+T> = None | Some(value: T)
}
