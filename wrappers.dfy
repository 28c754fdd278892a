/** JavaScript's optional values (`T | null`, `T | undefined`). */
module Wrappers {
  datatype Option<T> = None | Some(value: T)
}
