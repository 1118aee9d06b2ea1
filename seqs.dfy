/** Sequence facts shared by the filters of the compositor. */
module Seqs {

  /** `a` is `b` with some elements left out and the rest in their order:
      what `Array.prototype.filter` returns. */
  predicate IsSubsequence<T(==)>(a: seq<T>, b: seq<T>)
    decreases |b|
  {
    a == [] || (b != [] && ((a[0] == b[0] && IsSubsequence(a[1..], b[1..])) || IsSubsequence(a, b[1..])))
  }
}
