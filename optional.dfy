/** An optional value: the model's stand-in for TypeScript's `T | null`. */
module Optional {
  datatype Option<+T> = None | Some(value: T)
}
