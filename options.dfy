/** The optional-value type used by both stages (Rust's `Option`). */
module Options {
  datatype Option<+T> = None | Some(value: T)
}
