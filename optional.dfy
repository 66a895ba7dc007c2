/** A value that may be missing: the model's stand-in for JavaScript's
    `null`/`undefined` and for an empty search selection. */
module Optional {
  datatype Option<+T> = None | Some(value: T)
}
