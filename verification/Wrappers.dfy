/** Shared result shapes, and a sequence without one of its elements. */
module Wrappers {
  datatype Option<+T> = None | Some(value: T)

  function Without<T>(s: seq<T>, k: nat): seq<T>
    requires k < |s|
  {
    s[..k] + s[k + 1..]
  }
}
