/** A value that may be absent, and what several modules need about finite sets. */
module Wrappers {

  datatype Option<+T> = None | Some(value: T)

  /** 0 to n - 1. */
  function Naturals(n: nat): (r: set<nat>)
    ensures |r| == n && forall i: nat :: i in r <==> i < n
  {
    if n == 0 then {} else Naturals(n - 1) + {n - 1}
  }

  lemma SubsetIsSmaller<T>(a: set<T>, b: set<T>)
    requires a <= b
    ensures |a| <= |b|
  {
    assert b == a + (b - a);
  }
}
