/** The value a Python `None` or a SQL NULL stands for. */
module Options {
  datatype Option<+T> = None | Some(value: T)
}
