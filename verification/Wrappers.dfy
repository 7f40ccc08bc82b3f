/** The option type used by every other module in place of Go's nil. */
module Wrappers {

  datatype Option<+T> = None | Some(value: T)
}
