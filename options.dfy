/** An optional value: `None` where the modelled program would still be waiting. */
module Options {
  datatype Option<+T> = None | Some(value: T)
}
