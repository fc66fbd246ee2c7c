/** The optional value that the parsers return: `Some` on success, `None` when
    the input does not match. */
module Wrappers {
  datatype Option<+T> = None | Some(value: T)
}
