// The optional value that nullable columns, absent map entries and early returns become.
module Options {
  datatype Option<+T> = None | Some(value: T)
}
