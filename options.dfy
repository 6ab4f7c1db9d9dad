/** The absent-or-present value used where the controller returns `None`. */
module Options {
  datatype Option<+T> = None | Some(value: T)
}
