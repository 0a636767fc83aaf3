/** The Option datatype shared by the modules of this model (JavaScript's `undefined`/`null`). */
module Optional {
  datatype Option<+T> = None | Some(value: T)
}
