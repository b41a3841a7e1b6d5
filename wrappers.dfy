/** The optional value used for headers, response codes and timestamps that may be absent. */
module Wrappers {

  datatype Option<+T> = None | Some(value: T)
}
