/** Python's `Optional[str]`: a value that is either `None` or present. */
module Wrappers {

  datatype Option<+T> = None | Some(value: T)
}
