/** The optional value shared by the other modules; a missing float (NaN in the source) is `None`. */
module Options {
  datatype Option<+T> = None | Some(value: T)
}
