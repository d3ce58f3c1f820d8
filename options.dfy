/** A value that may be absent, for Python's `None` returns and optional dictionary entries. */
module Options {
  datatype Option<+T> = None | Some(value: T)
}
