/** A nullable column, an optional field or a missing result. */
module Options {
  datatype Option<+T> = None | Some(value: T)
}
