/** Values that may be missing: Go's nil, its zero time and its second "found" results. */
module Wrappers {

  datatype Option<T> = None | Some(value: T)
}
