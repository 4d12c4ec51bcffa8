/** Byte-wise ordering of names, and listing a set of names in that order, as Go compares strings. */
module Names {
  import opened Collections
  import opened Framing

  type Name = Text

  /** `a < b` on Go strings. */
  predicate Less(a: Bytes, b: Bytes) {
    b != [] && (a == [] || a[0] < b[0] || (a[0] == b[0] && Less(a[1..], b[1..])))
  }

  lemma {:induction false} LessIrreflexive(a: Bytes)
    ensures !Less(a, a)
  {
    if a != [] {
      LessIrreflexive(a[1..]);
    }
  }

  lemma {:induction false} LessTransitive(a: Bytes, b: Bytes, c: Bytes)
    requires Less(a, b) && Less(b, c)
    ensures Less(a, c)
  {
    if a != [] && a[0] == b[0] && b[0] == c[0] {
      LessTransitive(a[1..], b[1..], c[1..]);
    }
  }

  lemma {:induction false} LessTotal(a: Bytes, b: Bytes)
    ensures a == b || Less(a, b) || Less(b, a)
  {
    if a != [] && b != [] && a[0] == b[0] {
      LessTotal(a[1..], b[1..]);
      assert a == [a[0]] + a[1..] && b == [b[0]] + b[1..];
    }
  }

  lemma LessAsymmetric(a: Bytes, b: Bytes)
    requires Less(a, b)
    ensures !Less(b, a)
  {
    if Less(b, a) {
      LessTransitive(a, b, a);
      LessIrreflexive(a);
    }
  }

  ghost predicate Ascending(s: seq<Name>) {
    forall i, j :: 0 <= i < j < |s| ==> Less(s[i], s[j])
  }

  /** The names of `keys`, each once, in order. */
  ghost predicate Lists(s: seq<Name>, keys: set<Name>) {
    Ascending(s) && (forall k :: k in keys <==> k in s)
  }

  lemma InsertedAscending(s: seq<Name>, k: nat, x: Name)
    requires Ascending(s) && k <= |s|
    requires forall i :: 0 <= i < k ==> Less(s[i], x)
    requires forall i :: k <= i < |s| ==> Less(x, s[i])
    ensures Ascending(s[..k] + [x] + s[k..])
    ensures forall y :: y in s[..k] + [x] + s[k..] <==> y in s || y == x
  {
    hide Less;
    assert forall y :: y in s <==> y in s[..k] || y in s[k..] by {
      assert s == s[..k] + s[k..];
    }
  }

  /** Insert a new name where it belongs. */
  method Insert(s: seq<Name>, x: Name) returns (out: seq<Name>)
    requires Ascending(s) && x !in s
    ensures Ascending(out)
    ensures forall y :: y in out <==> y in s || y == x
  {
    hide Less;
    var k := 0;
    while k < |s| && Less(s[k], x)
      invariant 0 <= k <= |s|
      invariant forall i :: 0 <= i < k ==> Less(s[i], x)
    {
      k := k + 1;
    }
    forall i | k <= i < |s|
      ensures Less(x, s[i])
    {
      LessTotal(s[k], x);
      if k < i {
        LessTransitive(x, s[k], s[i]);
      }
    }
    InsertedAscending(s, k, x);
    out := s[..k] + [x] + s[k..];
  }

  /** Where a new name belongs. */
  lemma {:induction false} PlaceFor(s: seq<Name>, x: Name, n: nat) returns (k: nat)
    requires Ascending(s) && x !in s && n <= |s|
    requires forall i :: n <= i < |s| ==> Less(x, s[i])
    ensures k <= |s|
    ensures forall i :: 0 <= i < k ==> Less(s[i], x)
    ensures forall i :: k <= i < |s| ==> Less(x, s[i])
    decreases n
  {
    hide Less;
    if n == 0 {
      k := 0;
    } else {
      LessTotal(s[n - 1], x);
      if Less(s[n - 1], x) {
        k := n;
        forall i | 0 <= i < n - 1
          ensures Less(s[i], x)
        {
          LessTransitive(s[i], s[n - 1], x);
        }
      } else {
        k := PlaceFor(s, x, n - 1);
      }
    }
  }

  /** Every finite set of names has a listing. */
  lemma {:induction false} SomeListing(keys: set<Name>) returns (s: seq<Name>)
    ensures Lists(s, keys)
    decreases |keys|
  {
    hide Less;
    if keys == {} {
      s := [];
    } else {
      assert exists y :: y in keys by {
        assert (forall y :: y !in keys) ==> keys == {};
      }
      var x :| x in keys;
      var t := SomeListing(keys - {x});
      var k := PlaceFor(t, x, |t|);
      InsertedAscending(t, k, x);
      s := t[..k] + [x] + t[k..];
    }
  }

  /** Stands for collecting the keys of a map and sorting them. */
  method SortNames(keys: set<Name>) returns (out: seq<Name>)
    ensures Lists(out, keys)
  {
    hide Less;
    out := [];
    var todo := keys;
    while todo != {}
      invariant todo <= keys && Ascending(out)
      invariant forall y :: y in out <==> y in keys && y !in todo
      decreases todo
    {
      var x := AnyMember(todo);
      out := Insert(out, x);
      todo := todo - {x};
    }
  }

  /** There is only one such list. */
  lemma {:induction false} ListingUnique(a: seq<Name>, b: seq<Name>, keys: set<Name>, n: nat)
    requires Lists(a, keys) && Lists(b, keys) && n <= |a|
    ensures n <= |b| && a[..n] == b[..n]
    decreases n
  {
    hide Less;
    if n == 0 {
    } else {
      ListingUnique(a, b, keys, n - 1);
      var p := n - 1;
      assert forall i :: 0 <= i < p ==> a[i] == a[..p][i] == b[..p][i] == b[i];
      var x := a[p];
      assert x in keys;
      var i :| 0 <= i < |b| && b[i] == x;
      LessIrreflexive(x);
      assert i >= p;
      var y := b[p];
      assert y in keys;
      var j :| 0 <= j < |a| && a[j] == y;
      LessIrreflexive(y);
      assert j >= p;
      if i > p {
        assert Less(y, x);
        LessAsymmetric(y, x);
      }
      assert a[..n] == a[..p] + [x] && b[..n] == b[..p] + [b[p]];
    }
  }

  lemma ListingsAgree(a: seq<Name>, b: seq<Name>, keys: set<Name>)
    requires Lists(a, keys) && Lists(b, keys)
    ensures a == b
  {
    ListingUnique(a, b, keys, |a|);
    ListingUnique(b, a, keys, |b|);
    assert a == a[..|a|] && b == b[..|b|];
  }
}
