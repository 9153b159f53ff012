/** Optional values: a field the source leaves unset, or std::string::npos. */
module Wrappers {

  datatype Option<+T> = None | Some(value: T)
}
