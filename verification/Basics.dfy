/** Notions every engine model uses. */
module Basics {
  datatype Result<+T> = Ok(value: T) | Error

  type Byte = b: nat | b < 256

  predicate Distinct(s: seq<nat>) {
    forall a, b | 0 <= a < b < |s| :: s[a] != s[b]
  }

  /** A write from `a` to `b` that a power failure cut: each element is old or new. */
  ghost predicate Torn<T(!new)>(a: seq<T>, b: seq<T>, x: seq<T>) {
    |x| == |a| == |b| && forall i | 0 <= i < |x| :: x[i] == a[i] || x[i] == b[i]
  }
}
