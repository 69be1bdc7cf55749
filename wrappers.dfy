/** Optional values, used wherever the C# code returns null or a "Try" method reports failure. */
module Wrappers {

  datatype Option<+T> = None | Some(value: T)
}
