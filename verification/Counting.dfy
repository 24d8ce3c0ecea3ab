/** Counting: truth values as numbers, and the sizes of finite sets. */
module Counting {

  function Bit(b: bool): nat {
    if b then 1 else 0
  }

  lemma DisjointUnion<T>(a: set<T>, b: set<T>)
    requires a !! b
    ensures |a + b| == |a| + |b|
  {
  }

  lemma SubsetCount<T>(a: set<T>, b: set<T>)
    requires a <= b
    ensures |a| <= |b|
    ensures |a| == |b| ==> a == b
  {
    assert b == a + (b - a);
    DisjointUnion(a, b - a);
  }
}
