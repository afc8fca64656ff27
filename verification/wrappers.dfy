/** The optional values the logging code passes around: a caller location that
    may be unavailable, an error value that may be nil. */
module Wrappers {

  datatype Option<+T> = None | Some(value: T)
}
