/** The one datatype every module here shares. */
module Options {
  datatype Option<+T> = None | Some(value: T)
}
