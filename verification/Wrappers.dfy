/** The optional value used wherever the TypeScript source returns null. */
module Wrappers {
  datatype Option<+T> = None | Some(value: T) {
    function GetOr(default: T): T {
      match this
      case Some(v) => v
      case None => default
    }
  }

  function Max(a: int, b: int): int { if a < b then b else a }

  function Min(a: int, b: int): int { if a < b then a else b }

  predicate IsPrefix<T(==)>(a: seq<T>, b: seq<T>) { a <= b }

  function Copies<T>(x: T, n: nat): (s: seq<T>)
    ensures |s| == n && forall i :: 0 <= i < n ==> s[i] == x
  {
    if n == 0 then [] else [x] + Copies(x, n - 1)
  }

  predicate StartsWith(s: string, prefix: string) { prefix <= s }
}
