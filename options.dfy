/** An optional value, used for the machine's selected item (Python's `None` or a name). */
module Options {
  datatype Option<T> = None | Some(value: T)
}
