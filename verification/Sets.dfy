/** Sizes of finite sets. */
module Sets {

  lemma {:induction false} SubsetSize<T>(a: set<T>, b: set<T>)
    requires a <= b
    ensures |a| <= |b|
  {
    assert b == a + (b - a);
  }

  lemma AddSize<T>(a: set<T>, x: T)
    ensures |a + {x}| <= |a| + 1
  {
  }

  lemma RemoveSize<T>(a: set<T>, x: T)
    requires x in a
    ensures |a - {x}| == |a| - 1
  {
  }

  lemma RemovedSize<T>(a: set<T>, b: set<T>, c: set<T>)
    requires a <= b - c && c <= b
    ensures |a| <= |b| - |c|
  {
    SubsetSize(a, b - c);
    assert b == (b - c) + c;
  }
}
