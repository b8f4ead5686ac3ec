/** A value that may be missing: an optional property of a record, or a parse that may fail. */
module Wrappers {

  datatype Option<+T> = None | Some(value: T)
}
