/** The optional value used where JavaScript has `null`. */
module Optional {
  datatype Option<T> = None | Some(value: T)
}
