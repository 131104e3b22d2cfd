/** The usual optional value: `None` stands for "nothing was produced". */
module Wrappers {
  datatype Option<+T> = None | Some(value: T)
}
