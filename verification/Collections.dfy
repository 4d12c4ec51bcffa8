/** Stock types, and small facts about finite collections, that several components share. */
module Collections {

  datatype Option<+T> = None | Some(value: T)

  datatype Result<+T, +E> = Ok(value: T) | Err(error: E)

  function Min(x: real, y: real): real { if x < y then x else y }

  /** Iteration over a set or the keys of a map: any member may come next. */
  method AnyMember<T(==)>(s: set<T>) returns (x: T)
    requires s != {}
    ensures x in s
  {
    assert exists y :: y in s by {
      assert (forall y :: y !in s) ==> s == {};
    }
    x :| x in s;
  }

  lemma SubsetSize<T>(a: set<T>, b: set<T>)
    requires a <= b
    ensures |a| <= |b|
    ensures |a| == |b| ==> a == b
  {
    assert b == a + (b - a);
    assert |b| == |a| + |b - a|;
  }

  lemma SameWithout<T>(a: multiset<T>, b: multiset<T>, x: T)
    requires a + multiset{x} == b + multiset{x}
    ensures a == b
  {
    assert a == (a + multiset{x}) - multiset{x};
    assert b == (b + multiset{x}) - multiset{x};
  }
}
