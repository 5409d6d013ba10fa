/**
 * Go basics shared by every module: optional values (a nil-able `*string`, the
 * `err` of a `(value, err)` pair) and the `error` type.
 */
module Wrappers {

  datatype Option<+T> = None | Some(value: T)

  /** A Go `error` value; sentinel errors are compared by identity, here by value. */
  datatype Error = Error(message: string)

  function Min(a: int, b: int): int
  {
    if a <= b then a else b
  }

  /** No element of `s` occurs twice. */
  ghost predicate NoDuplicates<T>(s: seq<T>)
  {
    forall i, j :: 0 <= i < j < |s| ==> s[i] != s[j]
  }
}
