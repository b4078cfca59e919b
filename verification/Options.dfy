/** The usual optional value; the C code uses a null pointer for `None`. */
module Options {
  datatype Option<+T> = None | Some(value: T)
}
