/** Option, used wherever the sources have a `Maybe` or a `None`. */
module Wrappers {
  datatype Option<+T> = None | Some(value: T)
}
