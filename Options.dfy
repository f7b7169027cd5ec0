/** The usual optional value, standing in for JavaScript's `null` / `undefined`. */
module Options {
  datatype Option<T> = None | Some(value: T)
}
