/** The optional value shared by all modules. */
module Option {
  datatype Option<+T> = None | Some(value: T)
}
