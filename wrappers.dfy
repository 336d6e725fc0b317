/** The optional value used for the publisher's `retry` setting and for an exception that escapes. */
module Wrappers {
  datatype Option<+T> = None | Some(value: T)
}
