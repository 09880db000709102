/** The optional value used by every module of the project. */
module Base {
  datatype Option<+T> = None | Some(value: T)
}
