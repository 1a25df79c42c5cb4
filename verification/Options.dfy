/** The Python code's `X | None`. */
module Options {
  datatype Option<+T> = None | Some(value: T)
}
