/** The conventional optional value, used for lookups that may find nothing
    and for evaluations that may throw. */
module Wrappers {
  datatype Option<+T> = None | Some(value: T)
}
