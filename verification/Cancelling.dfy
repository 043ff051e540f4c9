/** What cancelling does to any book, also to one that was given the same id twice:
    the search visits bids before asks, lower prices before higher ones and each queue
    from its front, and takes out the first order it meets. */
module Cancelling {
  import opened Types
  import opened PriceTime
  import opened Levels

  /** One queue without its first order of this id. */
  function DropFirst(queue: seq<Order>, id: u128): seq<Order> {
    if queue == [] then []
    else if queue[0].id == id then queue[1..]
    else [queue[0]] + DropFirst(queue[1..], id)
  }

  /** One side without the first order of this id and price. */
  function DropAt(f: seq<Order>, p: u64, id: u128): seq<Order> {
    if f == [] then []
    else if f[0].id == id && f[0].Price() == p then f[1..]
    else [f[0]] + DropAt(f[1..], p, id)
  }

  /** The lowest price at which there is an order of this id. */
  function Lowest(f: seq<Order>, id: u128): Option<u64> {
    if f == [] then None else
      var rest := Lowest(f[1..], id);
      if f[0].id == id && (rest.None? || f[0].Price() <= rest.value) then Some(f[0].Price()) else rest
  }

  function CancelOne(f: seq<Order>, id: u128): seq<Order> {
    match Lowest(f, id)
    case None => f
    case Some(p) => DropAt(f, p, id)
  }

  function CancelFirst(b: Book, id: u128): Book {
    if Has(b.bids, id) then Book(CancelOne(b.bids, id), b.asks) else Book(b.bids, CancelOne(b.asks, id))
  }

  lemma {:induction false} LevelDropAt(f: seq<Order>, p: u64, id: u128, q: u64)
    ensures Level(DropAt(f, p, id), q) == if q == p then DropFirst(Level(f, p), id) else Level(f, q)
  {
    if f != [] {
      LevelDropAt(f[1..], p, id, q);
      assert ([f[0]] + Level(f[1..], q))[1..] == Level(f[1..], q);
      assert ([f[0]] + DropAt(f[1..], p, id))[1..] == DropAt(f[1..], p, id);
    }
  }

  lemma {:induction false} SortedDropAt(side: Side, f: seq<Order>, p: u64, id: u128)
    requires Sorted(side, f)
    ensures Sorted(side, DropAt(f, p, id))
    ensures forall o :: o in DropAt(f, p, id) ==> o in f
  {
    if f != [] {
      SortedDropAt(side, f[1..], p, id);
      assert ([f[0]] + DropAt(f[1..], p, id))[1..] == DropAt(f[1..], p, id);
    }
  }

  lemma {:induction false} LowestIs(f: seq<Order>, id: u128)
    ensures Lowest(f, id).None? <==> !Has(f, id)
    ensures Lowest(f, id).Some? ==> exists o :: o in f && o.id == id && o.Price() == Lowest(f, id).value
    ensures Lowest(f, id).Some? ==> forall o :: o in f && o.id == id ==> Lowest(f, id).value <= o.Price()
  {
    if f != [] {
      LowestIs(f[1..], id);
      assert forall o :: o in f <==> o == f[0] || o in f[1..];
    }
  }

  /** The search that finds nothing below `p` and an order at `p` is the whole search. */
  lemma CancelledAt(f: seq<Order>, p: u64, o: Order)
    requires o in f && o.Price() == p
    requires forall x :: x in f && x.id == o.id ==> p <= x.Price()
    ensures CancelOne(f, o.id) == DropAt(f, p, o.id)
  {
    LowestIs(f, o.id);
  }

  /** Exactly one order goes, and it has the id and the price. */
  lemma {:induction false} OneGoes(f: seq<Order>, p: u64, id: u128) returns (o: Order)
    requires exists x :: x in f && x.id == id && x.Price() == p
    ensures o in f && o.id == id && o.Price() == p
    ensures multiset(f) == multiset(DropAt(f, p, id)) + multiset{o}
  {
    assert f == [f[0]] + f[1..];
    if f[0].id == id && f[0].Price() == p {
      o := f[0];
    } else {
      o := OneGoes(f[1..], p, id);
    }
  }

  lemma {:induction false} DropAtIndex(f: seq<Order>, p: u64, id: u128) returns (i: nat)
    requires exists x :: x in f && x.id == id && x.Price() == p
    ensures i < |f| && f[i].id == id && f[i].Price() == p
    ensures forall j :: 0 <= j < i ==> f[j].id != id || f[j].Price() != p
    ensures DropAt(f, p, id) == f[..i] + f[i + 1..]
  {
    if f[0].id == id && f[0].Price() == p {
      i := 0;
    } else {
      var k := DropAtIndex(f[1..], p, id);
      i := k + 1;
      assert f[..i] + f[i + 1..] == [f[0]] + (f[1..][..k] + f[1..][k + 1..]);
      assert forall j :: 0 < j < i ==> f[j] == f[1..][j - 1];
    }
  }

  lemma CancelOneAt(f: seq<Order>, id: u128) returns (i: nat)
    requires Has(f, id)
    ensures i < |f| && f[i].id == id && CancelOne(f, id) == f[..i] + f[i + 1..]
    ensures forall j :: 0 <= j < |f| && f[j].id == id ==>
      f[i].Price() < f[j].Price() || (f[i].Price() == f[j].Price() && i <= j)
  {
    LowestIs(f, id);
    i := DropAtIndex(f, Lowest(f, id).value, id);
    forall j | 0 <= j < |f| && f[j].id == id
      ensures f[i].Price() < f[j].Price() || (f[i].Price() == f[j].Price() && i <= j)
    {
      assert f[j] in f;
    }
  }

  /** What a cancel takes out of a book that holds the id: one order with that id, from the
      bids if it is there, at the lowest price it has on that side and the first in that
      queue. All else keeps its place. */
  lemma CancelTakesOut(b: Book, id: u128) returns (i: nat)
    requires b.Holds(id)
    ensures var f := if Has(b.bids, id) then b.bids else b.asks;
      && i < |f| && f[i].id == id
      && (forall j :: 0 <= j < |f| && f[j].id == id ==>
            f[i].Price() < f[j].Price() || (f[i].Price() == f[j].Price() && i <= j))
    ensures CancelFirst(b, id) ==
      if Has(b.bids, id) then Book(b.bids[..i] + b.bids[i + 1..], b.asks)
      else Book(b.bids, b.asks[..i] + b.asks[i + 1..])
  {
    if Has(b.bids, id) {
      i := CancelOneAt(b.bids, id);
    } else {
      i := CancelOneAt(b.asks, id);
    }
  }

  lemma {:induction false} DropIsWithout(f: seq<Order>, o: Order)
    requires DistinctIds(f) && o in f
    ensures DropAt(f, o.Price(), o.id) == Without(f, o.id)
  {
    if f[0].id == o.id {
      SameIdSameOrder(f, f[0], o);
      WithoutAbsent(f[1..], o.id);
    } else {
      DropIsWithout(f[1..], o);
    }
  }

  lemma CancelOneIsWithout(f: seq<Order>, id: u128)
    requires DistinctIds(f)
    ensures CancelOne(f, id) == Without(f, id)
  {
    LowestIs(f, id);
    if Has(f, id) {
      var o :| o in f && o.id == id && o.Price() == Lowest(f, id).value;
      DropIsWithout(f, o);
    } else {
      WithoutAbsent(f, id);
    }
  }

  /** In a book in which no id is used twice, the order with the id goes and nothing
      else changes. */
  lemma CancelFirstIsCancel(b: Book, id: u128)
    requires ValidBook(b)
    ensures CancelFirst(b, id) == Cancel(b, id)
  {
    CancelOneIsWithout(b.bids, id);
    CancelOneIsWithout(b.asks, id);
    if Has(b.bids, id) {
      WithoutAbsent(b.asks, id);
    } else {
      WithoutAbsent(b.bids, id);
    }
  }
}
