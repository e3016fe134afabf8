/** The optional value used wherever the program has a nil, an absent map entry or a step that is not enabled. */
module Options {
  datatype Option<+T> = None | Some(value: T)
}
