/** The optional value the handlers use for "absent" results and for the
    failures that surface as a generic server error. */
module Wrappers {

  datatype Option<+T> = None | Some(value: T)
}
