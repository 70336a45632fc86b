/** Small types and notions that several models share. */
module Wrappers {

  /** A value that may be absent: the source's `null` and `undefined`. */
  datatype Option<+T> = None | Some(value: T)

  /** `Math.max(0, n)`. */
  function Max0(n: int): int { if n < 0 then 0 else n }

  predicate NoRepeats<T(==)>(s: seq<T>) { forall i, j :: 0 <= i < j < |s| ==> s[i] != s[j] }
}
