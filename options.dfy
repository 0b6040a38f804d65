/** The optional value used wherever the Java code uses `null`. */
module Options {
  datatype Option<+T> = None | Some(value: T)
}
