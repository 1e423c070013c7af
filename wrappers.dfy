/** Rust's Option, as used for a player's target item and for the item pool draw. */
module Wrappers {
  datatype Option<+T> = None | Some(value: T)
}
