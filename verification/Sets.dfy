/** Sizes of finite sets, and sequences without repeats. */
module Sets {
  predicate Distinct<T(==)>(s: seq<T>) {
    forall i, j :: 0 <= i < j < |s| ==> s[i] != s[j]
  }

  lemma SubsetCount<K>(small: set<K>, big: set<K>)
    requires small <= big
    ensures |small| <= |big|
  {
    assert big == small + (big - small);
  }

  lemma SubsetFills<K>(small: set<K>, big: set<K>)
    requires small <= big && |small| >= |big|
    ensures small == big
  {
    assert big == small + (big - small);
    assert |big| == |small| + |big - small|;
  }

  lemma AtMostOne<K>(s: set<K>, x: K)
    requires forall y :: y in s ==> y == x
    ensures |s| <= 1 && ((forall y :: y !in s) ==> s == {})
  {
    assert s <= {x};
    SubsetCount(s, {x});
  }
}
