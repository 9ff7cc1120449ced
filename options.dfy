/** The optional value used throughout the model: a missing environment
    variable, a failed parse, an absent parent. */
module Options {
  datatype Option<+T> = None | Some(value: T)
}
