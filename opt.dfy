/** The optional value that TypeScript writes as `T | undefined` (an absent field, a missing record). */
module Opt {
  datatype Option<+T> = None | Some(value: T)
}
