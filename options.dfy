/** An optional value: a parse that may fail, as Python's `int()` raising `ValueError`. */
module Options {
  datatype Option<T> = None | Some(value: T)
}
