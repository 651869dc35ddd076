/** The optional value used for lookups that may find nothing and for
    computations that the original program aborts with an exception. */
module Wrappers {

  datatype Option<+T> = None | Some(value: T)
}
