/** The usual Some/None datatype: the screener's "empty record" is None. */
module Wrappers {

  datatype Option<+T> = None | Some(value: T)
}
