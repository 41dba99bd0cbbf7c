/** A value that may be missing: what the source marks with null, an end iterator or None. */
module Wrappers {

  datatype Option<+T> = None | Some(value: T)
}
