/** The iteration order of an ordered map: the keys of a finite set, listed once
    each in strictly ascending order of a given strict total order. */
module Ordered {

  ghost predicate PartialOrder<K(!new)>(less: (K, K) -> bool) {
    && (forall x :: !less(x, x))
    && (forall x, y, z :: less(x, y) && less(y, z) ==> less(x, z))
  }

  ghost predicate StrictOrder<K(!new)>(less: (K, K) -> bool) {
    PartialOrder(less) && forall x, y :: x != y ==> less(x, y) || less(y, x)
  }

  ghost predicate Below<K>(less: (K, K) -> bool, x: K, s: seq<K>) {
    forall y :: y in s ==> less(x, y)
  }

  ghost predicate Ascending<K>(less: (K, K) -> bool, s: seq<K>) {
    s == [] || (Below(less, s[0], s[1..]) && Ascending(less, s[1..]))
  }

  predicate IsLeast<K(==)>(less: (K, K) -> bool, s: set<K>, x: K) {
    x in s && forall y :: y in s && y != x ==> less(x, y)
  }

  lemma HasLeast<K(!new)>(less: (K, K) -> bool, s: set<K>)
    requires StrictOrder(less) && s != {}
    ensures exists x :: IsLeast(less, s, x)
  {
    var x :| x in s;
    if s == {x} {
      assert IsLeast(less, s, x);
    } else {
      HasLeast(less, s - {x});
      var y :| IsLeast(less, s - {x}, y);
      if less(x, y) {
        forall z | z in s && z != x ensures less(x, z) {
          assert z == y || z in s - {x};
        }
        assert IsLeast(less, s, x);
      } else {
        assert IsLeast(less, s, y);
      }
    }
  }

  function Enumerate<K(!new, ==)>(less: (K, K) -> bool, s: set<K>): (r: seq<K>)
    requires StrictOrder(less)
    ensures Ascending(less, r)
    ensures forall x :: x in r <==> x in s
  {
    if s == {} then [] else
      HasLeast(less, s);
      var x :| IsLeast(less, s, x);
      var rest := Enumerate(less, s - {x});
      assert ([x] + rest)[1..] == rest;
      [x] + rest
  }

  lemma {:induction false} AscendingSplit<K>(less: (K, K) -> bool, a: seq<K>, b: seq<K>)
    requires Ascending(less, a + b)
    ensures Ascending(less, a) && Ascending(less, b)
    ensures forall x, y :: x in a && y in b ==> less(x, y)
  {
    if a == [] {
      assert a + b == b;
    } else {
      assert (a + b)[1..] == a[1..] + b;
      AscendingSplit(less, a[1..], b);
      assert forall y :: y in a[1..] || y in b ==> y in a[1..] + b;
    }
  }

  lemma {:induction false} AscendingJoin<K>(less: (K, K) -> bool, a: seq<K>, b: seq<K>)
    requires Ascending(less, a) && Ascending(less, b)
    requires forall x, y :: x in a && y in b ==> less(x, y)
    ensures Ascending(less, a + b)
  {
    if a == [] {
      assert a + b == b;
    } else {
      assert (a + b)[1..] == a[1..] + b;
      assert a[0] in a && forall x :: x in a[1..] ==> x in a;
      AscendingJoin(less, a[1..], b);
    }
  }

  /** In index form: an earlier key is a smaller key. */
  lemma AscendingAt<K>(less: (K, K) -> bool, s: seq<K>, i: nat, j: nat)
    requires Ascending(less, s) && i < j < |s|
    ensures less(s[i], s[j])
  {
    assert s == s[..j] + s[j..];
    AscendingSplit(less, s[..j], s[j..]);
    assert s[..j][i] in s[..j] && s[j..][0] in s[j..];
  }

  lemma AscendingHead<K(!new)>(less: (K, K) -> bool, s: seq<K>)
    requires PartialOrder(less) && Ascending(less, s) && s != []
    ensures forall x :: x in s[1..] <==> x in s && x != s[0]
  {
    assert s == [s[0]] + s[1..];
    assert s[0] !in s[1..];
  }

  /** There is only one way to list a set in ascending order. */
  lemma {:induction false} AscendingIsUnique<K(!new)>(less: (K, K) -> bool, a: seq<K>, b: seq<K>)
    requires PartialOrder(less) && Ascending(less, a) && Ascending(less, b)
    requires forall x :: x in a <==> x in b
    ensures a == b
  {
    assert a != [] ==> a[0] in a;
    assert b != [] ==> b[0] in b;
    if a != [] && b != [] {
      AscendingHead(less, a);
      AscendingHead(less, b);
      assert a[0] in b && b[0] in a;
      assert a[0] == b[0];
      AscendingIsUnique(less, a[1..], b[1..]);
      assert a == [a[0]] + a[1..] && b == [b[0]] + b[1..];
    }
  }
}
