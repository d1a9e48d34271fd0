/** The optional value used for results that may be missing: a failed call, an absent key. */
module Wrappers {

  datatype Option<+T> = None | Some(value: T)
}
