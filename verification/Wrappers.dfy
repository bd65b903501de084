module Wrappers {
  /** A value that may be missing: nil in Swift, a failed call, an absent file. */
  datatype Option<T> = None | Some(value: T)
}
