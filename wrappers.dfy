/** The Some/None wrapper, for optional fields (an event's end date) and for
    parses and lookups that can fail. */
module Wrappers {

  datatype Option<+T> = None | Some(value: T)
}
