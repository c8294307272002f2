/** What several modules use: the two-case option, and lists that one element leaves. */
module Wrappers {
  /** Wherever the sources return std::optional or take a nullable pointer. */
  datatype Option<+T> = None | Some(value: T)

  function RemoveAt<T>(s: seq<T>, i: nat): seq<T>
    requires i < |s|
  {
    s[..i] + s[i + 1..]
  }
}
