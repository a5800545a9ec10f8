/** The Some/None shape of `Optional[...]` lookups and of calls that may raise. */
module Wrappers {

  datatype Option<+T> = None | Some(value: T)
}
