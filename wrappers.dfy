/** Rust's `Option<T>`, shared by the item-kind tables and the inventory. */
module Wrappers {
  datatype Option<+T> = None | Some(value: T)
}
