/** Facts about finite sets. */
module Sets {
  lemma SubsetSize<T>(a: set<T>, b: set<T>)
    requires a <= b
    ensures |a| <= |b|
  {
    assert b == a + (b - a);
  }

  /** All but one of the elements are in the other set. */
  lemma SubsetButOne<T>(a: set<T>, x: T, b: set<T>)
    requires x in a && a - {x} <= b
    ensures |a| <= |b| + 1
  {
    SubsetSize(a - {x}, b);
  }
}
