/** The optional value used for `Coord | null` and `ActiveBoost | null` fields. */
module Wrappers {
  datatype Option<+T> = None | Some(value: T)
}
