/** A value that may be absent, like a TypeScript `T | null`. */
module Options {

  datatype Option<+T> = None | Some(value: T)
}
