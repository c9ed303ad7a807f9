/** The nullable values of the source (`CaldavTask?`, `Filter?`, `String?`). */
module Wrappers {
  datatype Option<+T> = None | Some(value: T)
}
