/** Facts about finite sets and maps that several components share. */
module Collections {

  lemma SubsetSize<T>(a: set<T>, b: set<T>)
    requires a <= b
    ensures |a| <= |b|
  {
    assert b == a + (b - a);
  }

  /** Some number is above every key of a finite map. */
  lemma {:induction false} FreshAbove<T>(m: map<nat, T>) returns (n: nat)
    ensures forall k :: k in m ==> k < n
    decreases |m|
  {
    n := 0;
    if k :| k in m {
      var smaller := m - {k};
      assert m.Keys == smaller.Keys + {k};
      var e := FreshAbove(smaller);
      n := if e > k then e else k + 1;
      forall j | j in m
        ensures j < n
      {
        assert j == k || j in smaller;
      }
    }
  }
}
