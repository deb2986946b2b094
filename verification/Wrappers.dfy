/** The optional values that the client library's `std::optional` results and lookups become. */
module Wrappers {
  datatype Option<+T> = None | Some(value: T)
}
