/** The absent-or-present values the program writes as `null` or `None`. */
module Options {
  datatype Option<+T> = None | Some(value: T)
}
