/** Optional values, used wherever the Java code returns null, throws a
    NumberFormatException, or answers `false` and leaves its state alone. */
module Wrappers {

  datatype Option<+T> = None | Some(value: T)
}
