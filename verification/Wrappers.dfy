/** Absent values and the ids of rows. */
module Wrappers {
  datatype Option<+T> = None | Some(value: T)

  type Id = nat
}
