/** The absent-or-present value that TypeScript spells `T | undefined` (or `T | null`). */
module Optional {

  datatype Option<+T> = None | Some(value: T)
}
