/** The optional value shared by every component: the sources' nil. */
module Options {
  datatype Option<+T> = None | Some(value: T)
}
