/** The stock optional value used by all modules of the model. */
module Options {
  datatype Option<+T> = None | Some(value: T)
}
