// A value that may be missing: an absent field, an unanswered read, a lost reply.
module Options {
  datatype Option<+T> = None | Some(value: T)
}
