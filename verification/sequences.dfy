/** Facts about sequences shared by the list filters of the pages. */
module Sequences {

  /** `b` can be obtained from `a` by deleting elements, keeping the order
      of the rest: either `a`'s first element is kept as `b`'s first, or it
      is deleted. */
  predicate IsSubsequence<T(==)>(b: seq<T>, a: seq<T>)
    decreases |a|
  {
    if |a| == 0 then |b| == 0
    else (|b| > 0 && b[0] == a[0] && IsSubsequence(b[1..], a[1..])) || IsSubsequence(b, a[1..])
  }
}
