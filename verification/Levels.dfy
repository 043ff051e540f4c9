/** How resting and cancelling act on a side of the book, level by level, and why
    a sorted side is known once each of its levels is. */
module Levels {
  import opened Types
  import opened PriceTime

  lemma {:induction false} RestMembers(side: Side, f: seq<Order>, o: Order)
    ensures forall x :: x in Rest(side, f, o) <==> x == o || x in f
  {
    if f != [] && !Better(side, o.Price(), f[0].Price()) {
      RestMembers(side, f[1..], o);
    }
  }

  lemma {:induction false} WithoutMembers(f: seq<Order>, id: u128)
    ensures forall x :: x in Without(f, id) <==> x in f && x.id != id
  {
    if f != [] {
      WithoutMembers(f[1..], id);
    }
  }

  lemma {:induction false} WithoutAbsent(f: seq<Order>, id: u128)
    requires !Has(f, id)
    ensures Without(f, id) == f
  {
    if f != [] {
      assert f[0] in f;
      assert forall x :: x in f[1..] ==> x in f;
      WithoutAbsent(f[1..], id);
    }
  }

  lemma {:induction false} LevelAppend(f: seq<Order>, g: seq<Order>, p: u64)
    ensures Level(f + g, p) == Level(f, p) + Level(g, p)
  {
    if f == [] {
      assert f + g == g;
    } else {
      assert (f + g)[1..] == f[1..] + g;
      LevelAppend(f[1..], g, p);
    }
  }

  lemma {:induction false} LevelMembers(f: seq<Order>, p: u64)
    ensures forall x :: x in Level(f, p) <==> x in f && x.Price() == p
  {
    if f != [] {
      LevelMembers(f[1..], p);
    }
  }

  lemma {:induction false} LevelOfUniform(f: seq<Order>, p: u64, q: u64)
    requires forall o :: o in f ==> o.Price() == p
    ensures Level(f, q) == if p == q then f else []
  {
    if f != [] {
      assert f[0] in f;
      LevelOfUniform(f[1..], p, q);
    }
  }

  /** A resting order joins the back of its own level and touches no other. */
  lemma {:induction false} LevelRest(side: Side, f: seq<Order>, o: Order, p: u64)
    requires Sorted(side, f)
    ensures Level(Rest(side, f, o), p) == Level(f, p) + (if p == o.Price() then [o] else [])
  {
    if f == [] || Better(side, o.Price(), f[0].Price()) {
      assert ([o] + f)[1..] == f;
      if p == o.Price() {
        assert Level(f, p) != [] ==> Level(f, p)[0] in Level(f, p);
        LevelMembers(f, p);
        assert forall x :: x in f ==> x == f[0] || x in f[1..];
        assert forall x :: x !in Level(f, p);
      }
    } else {
      LevelRest(side, f[1..], o, p);
    }
  }

  lemma {:induction false} SortedRest(side: Side, f: seq<Order>, o: Order)
    requires Sorted(side, f)
    ensures Sorted(side, Rest(side, f, o))
  {
    if f == [] || Better(side, o.Price(), f[0].Price()) {
      assert ([o] + f)[1..] == f;
      assert forall x :: x in f ==> x == f[0] || x in f[1..];
    } else {
      SortedRest(side, f[1..], o);
      RestMembers(side, f[1..], o);
    }
  }

  lemma {:induction false} SortedWithout(side: Side, f: seq<Order>, id: u128)
    requires Sorted(side, f)
    ensures Sorted(side, Without(f, id))
  {
    if f != [] {
      SortedWithout(side, f[1..], id);
      WithoutMembers(f[1..], id);
      assert ([f[0]] + Without(f[1..], id))[1..] == Without(f[1..], id);
    }
  }

  lemma {:induction false} DistinctRest(side: Side, f: seq<Order>, o: Order)
    requires DistinctIds(f) && !Has(f, o.id)
    ensures DistinctIds(Rest(side, f, o))
  {
    if f == [] || Better(side, o.Price(), f[0].Price()) {
      assert ([o] + f)[1..] == f;
    } else {
      assert f[0] in f;
      assert forall x :: x in f[1..] ==> x in f;
      DistinctRest(side, f[1..], o);
      RestMembers(side, f[1..], o);
    }
  }

  lemma {:induction false} DistinctWithout(f: seq<Order>, id: u128)
    requires DistinctIds(f)
    ensures DistinctIds(Without(f, id))
  {
    if f != [] {
      DistinctWithout(f[1..], id);
      WithoutMembers(f[1..], id);
      assert ([f[0]] + Without(f[1..], id))[1..] == Without(f[1..], id);
    }
  }

  lemma RestKeepsSide(side: Side, f: seq<Order>, o: Order)
    requires ValidSide(side, f) && Resting(side, o) && !Has(f, o.id)
    ensures ValidSide(side, Rest(side, f, o))
  {
    SortedRest(side, f, o);
    DistinctRest(side, f, o);
    RestMembers(side, f, o);
  }

  lemma WithoutKeepsSide(side: Side, f: seq<Order>, id: u128)
    requires ValidSide(side, f)
    ensures ValidSide(side, Without(f, id))
  {
    SortedWithout(side, f, id);
    DistinctWithout(f, id);
    WithoutMembers(f, id);
  }

  lemma TailValid(side: Side, f: seq<Order>)
    requires ValidSide(side, f) && f != []
    ensures ValidSide(side, f[1..]) && Resting(side, f[0])
  {
    assert f[0] in f && forall o :: o in f[1..] ==> o in f;
  }

  /** In a sorted side the head is the best price, so its level is not empty and
      no order is better. */
  lemma HeadIsBest(side: Side, f: seq<Order>, o: Order)
    requires Sorted(side, f) && o in f
    ensures !Better(side, o.Price(), f[0].Price())
  {
    assert o == f[0] || o in f[1..];
  }

  lemma {:induction false} IndexedSorted(side: Side, f: seq<Order>, i: nat, j: nat)
    requires Sorted(side, f) && i <= j < |f|
    ensures !Better(side, f[j].Price(), f[i].Price())
  {
    if i == 0 {
      HeadIsBest(side, f, f[j]);
    } else {
      IndexedSorted(side, f[1..], i - 1, j - 1);
    }
  }

  lemma {:induction false} IndexedDistinct(f: seq<Order>, i: nat, j: nat)
    requires DistinctIds(f) && i < j < |f|
    ensures f[i].id != f[j].id
  {
    if i == 0 {
      assert f[j] in f[1..] by { assert f[1..][j - 1] == f[j]; }
    } else {
      IndexedDistinct(f[1..], i - 1, j - 1);
    }
  }

  lemma {:induction false} SameIdSameOrder(f: seq<Order>, x: Order, y: Order)
    requires DistinctIds(f) && x in f && y in f && x.id == y.id
    ensures x == y
  {
    if x != f[0] && y != f[0] {
      SameIdSameOrder(f[1..], x, y);
    }
  }

  /** A sorted side is determined by its levels. */
  lemma {:induction false} SortedByLevels(side: Side, f: seq<Order>, g: seq<Order>)
    requires Sorted(side, f) && Sorted(side, g)
    requires forall p: u64 :: Level(f, p) == Level(g, p)
    ensures f == g
  {
    if g != [] {
      LevelMembers(g, g[0].Price());
      assert g[0] in Level(g, g[0].Price());
    }
    if f != [] {
      var p := f[0].Price();
      LevelMembers(f, p);
      LevelMembers(g, p);
      assert f[0] in Level(g, p);
      HeadIsBest(side, g, f[0]);
      var p' := g[0].Price();
      LevelMembers(f, p');
      LevelMembers(g, p');
      assert g[0] in Level(f, p');
      HeadIsBest(side, f, g[0]);
      assert p == p';
      assert f[0] == Level(f, p)[0] == Level(g, p)[0] == g[0];
      forall q: u64 ensures Level(f[1..], q) == Level(g[1..], q) {
        assert Level(f, q) == Level(g, q);
        var head := if f[0].Price() == q then [f[0]] else [];
        assert Level(f[1..], q) == Level(f, q)[|head|..];
        assert Level(g[1..], q) == Level(g, q)[|head|..];
      }
      SortedByLevels(side, f[1..], g[1..]);
    }
  }
}
