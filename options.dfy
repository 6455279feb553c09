/** An optional value: the model's rendering of Python's `None`. */
module Options {
  datatype Option<T> = None | Some(value: T)
}
