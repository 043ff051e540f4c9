/** What every fill, match and cancel keeps: quantities, the structure of a side,
    and the gap between bids and asks. */
module Matching {
  import opened Types
  import opened PriceTime
  import opened Levels
  import opened Filling

  lemma {:induction false} TotalsAppend(a: seq<Trade>, b: seq<Trade>, id: u128)
    ensures Total(a + b) == Total(a) + Total(b)
    ensures MakerQty(a + b, id) == MakerQty(a, id) + MakerQty(b, id)
    ensures TakerQty(a + b, id) == TakerQty(a, id) + TakerQty(b, id)
  {
    if a == [] {
      assert a + b == b;
    } else {
      assert (a + b)[1..] == a[1..] + b;
      TotalsAppend(a[1..], b, id);
    }
  }

  lemma CutConserves(f: seq<Order>, q: u64, id: u128)
    requires f != [] && q <= f[0].quantity
    ensures Depth(Cut(f, q)) + q == Depth(f)
    ensures Qty(Cut(f, q), id) + (if f[0].id == id then q else 0) == Qty(f, id)
  {
    assert ([f[0].(quantity := f[0].quantity - q)] + f[1..])[1..] == f[1..];
  }

  lemma TotalsOfOne(t: Trade, id: u128)
    ensures Total([t]) == t.quantity
    ensures MakerQty([t], id) == if t.makerId == id then t.quantity else 0
    ensures TakerQty([t], id) == if t.takerId == id then t.quantity else 0
  {
    assert [t][1..] == [];
  }

  /** The incoming order: what it trades is what it loses and what the side loses. */
  lemma {:induction false} FillTotals(f: seq<Order>, tk: Taker, q: u64, k: nat)
    ensures Total(FillFrom(f, tk, q, k).trades) + FillFrom(f, tk, q, k).left == q
    ensures Depth(FillFrom(f, tk, q, k).book) + Total(FillFrom(f, tk, q, k).trades) == Depth(f)
  {
    if f != [] && MayTake(tk, f[0]) {
      if q <= f[0].quantity {
        TotalsOfOne(Take(tk, k, f[0], q), 0);
        CutConserves(f, q, 0);
      } else {
        TotalsOfOne(Take(tk, k, f[0], f[0].quantity), 0);
        FillTotals(f[1..], tk, q - f[0].quantity, k + 1);
        TotalsAppend([Take(tk, k, f[0], f[0].quantity)], FillFrom(f[1..], tk, q - f[0].quantity, k + 1).trades, 0);
      }
    }
  }

  /** Each resting order: what it trades is what it loses. */
  lemma {:induction false} FillMakers(f: seq<Order>, tk: Taker, q: u64, k: nat, id: u128)
    ensures MakerQty(FillFrom(f, tk, q, k).trades, id) + Qty(FillFrom(f, tk, q, k).book, id) == Qty(f, id)
  {
    if f == [] || !MayTake(tk, f[0]) {
      assert FillFrom(f, tk, q, k) == Fill([], f, q);
    } else if q <= f[0].quantity {
      TotalsOfOne(Take(tk, k, f[0], q), id);
      CutConserves(f, q, id);
    } else {
      var t := Take(tk, k, f[0], f[0].quantity);
      var s := FillFrom(f[1..], tk, q - f[0].quantity, k + 1);
      FillMakers(f[1..], tk, q - f[0].quantity, k + 1, id);
      assert FillFrom(f, tk, q, k) == Fill([t] + s.trades, s.book, s.left);
      TotalsOfOne(t, id);
      TotalsAppend([t], s.trades, id);
    }
  }

  lemma {:induction false} FillTaker(f: seq<Order>, tk: Taker, q: u64, k: nat)
    ensures forall t :: t in FillFrom(f, tk, q, k).trades ==> t.takerId == tk.id
  {
    if f != [] && MayTake(tk, f[0]) && q > f[0].quantity {
      FillTaker(f[1..], tk, q - f[0].quantity, k + 1);
    }
  }

  lemma {:induction false} TakerOnly(ts: seq<Trade>, taker: u128, id: u128)
    requires forall t :: t in ts ==> t.takerId == taker
    ensures TakerQty(ts, id) == if id == taker then Total(ts) else 0
  {
    if ts != [] {
      assert ts[0] in ts;
      assert forall t :: t in ts[1..] ==> t in ts;
      TakerOnly(ts[1..], taker, id);
    }
  }

  /** `o` is one of `f`, perhaps with part of its quantity gone. */
  ghost predicate Remnant(f: seq<Order>, o: Order) {
    exists x :: x in f && o == x.(quantity := o.quantity) && 0 < o.quantity <= x.quantity
  }

  lemma {:induction false} FillKeepsSide(side: Side, f: seq<Order>, tk: Taker, q: u64, k: nat)
    requires ValidSide(side, f)
    ensures ValidSide(side, FillFrom(f, tk, q, k).book)
    ensures forall o :: o in FillFrom(f, tk, q, k).book ==> Remnant(f, o)
  {
    if f == [] || !MayTake(tk, f[0]) {
      AllRemnants(side, f, f);
    } else if q < f[0].quantity {
      assert f[0] in f;
      ReducedHead(side, f, f[0].quantity - q);
    } else {
      assert forall o :: o in f[1..] ==> o in f;
      if q == f[0].quantity {
        AllRemnants(side, f, f[1..]);
      } else {
        FillKeepsSide(side, f[1..], tk, q - f[0].quantity, k + 1);
        MoreRemnants(f, FillFrom(f[1..], tk, q - f[0].quantity, k + 1).book);
      }
    }
  }

  /** Quantity is left only when nothing eligible is. */
  lemma {:induction false} FillExhausts(side: Side, f: seq<Order>, tk: Taker, q: u64, k: nat, o: Order)
    requires Sorted(side, f) && tk.side == side
    requires FillFrom(f, tk, q, k).left > 0 && o in FillFrom(f, tk, q, k).book
    ensures !MayTake(tk, o)
  {
    if f != [] && MayTake(tk, f[0]) {
      FillExhausts(side, f[1..], tk, q - f[0].quantity, k + 1, o);
    } else {
      HeadIsBest(side, f, o);
    }
  }

  lemma AllRemnants(side: Side, f: seq<Order>, g: seq<Order>)
    requires forall o :: o in f ==> Resting(side, o)
    requires forall o :: o in g ==> o in f
    ensures forall o :: o in g ==> Remnant(f, o)
  {
    forall o | o in g ensures Remnant(f, o) {
      assert o == o.(quantity := o.quantity);
    }
  }

  lemma MoreRemnants(f: seq<Order>, g: seq<Order>)
    requires f != [] && forall o :: o in g ==> Remnant(f[1..], o)
    ensures forall o :: o in g ==> Remnant(f, o)
  {
    forall o | o in g ensures Remnant(f, o) {
      var x :| x in f[1..] && o == x.(quantity := o.quantity) && 0 < o.quantity <= x.quantity;
      assert x in f;
    }
  }

  lemma ReducedHead(side: Side, f: seq<Order>, n: u64)
    requires ValidSide(side, f) && f != [] && 0 < n <= f[0].quantity
    ensures var g := [f[0].(quantity := n)] + f[1..];
      ValidSide(side, g) && forall o :: o in g ==> Remnant(f, o)
  {
    var h := f[0].(quantity := n);
    var g := [h] + f[1..];
    assert g[1..] == f[1..] && g[0] == h;
    assert f[0] in f && (forall o :: o in f[1..] ==> o in f);
    forall o | o in g ensures Remnant(f, o) && Resting(side, o) {
      if o == h {
        assert h == f[0].(quantity := h.quantity);
      } else {
        assert o == o.(quantity := o.quantity);
      }
    }
  }

  // ------------------------------------------------------------- whole operations

  lemma OwnSideAfter(side: Side, f: seq<Order>, o: Order, left: u64)
    requires ValidSide(side, f) && o.side == side && !Has(f, o.id)
    ensures var g := if Rests(o, left) then Rest(side, f, o.(quantity := left)) else f;
      && ValidSide(side, g)
      && forall x :: x in g ==> x in f || (Rests(o, left) && x == o.(quantity := left))
  {
    if Rests(o, left) {
      RestKeepsSide(side, f, o.(quantity := left));
      RestMembers(side, f, o.(quantity := left));
    }
  }

  /** The book stays well formed. */
  lemma MatchKeepsBook(b: Book, o: Order, clock: Clock)
    requires ValidBook(b) && !b.Holds(o.id)
    ensures ValidBook(Match(b, o, clock).book)
  {
    var hit := o.side.Opposite();
    var r := FillFrom(b.On(hit), TakerOf(o, clock), o.quantity, 0);
    FillKeepsSide(hit, b.On(hit), TakerOf(o, clock), o.quantity, 0);
    OwnSideAfter(o.side, b.On(o.side), o, r.left);
  }

  /** Bids stay strictly below asks: a remainder that rests is beyond the price of
      every order left on the side it was matched against. */
  lemma MatchKeepsUncrossed(b: Book, o: Order, clock: Clock)
    requires ValidBook(b) && !b.Holds(o.id) && Uncrossed(b)
    ensures Uncrossed(Match(b, o, clock).book)
  {
    var hit, tk := o.side.Opposite(), TakerOf(o, clock);
    var r := FillFrom(b.On(hit), tk, o.quantity, 0);
    FillKeepsSide(hit, b.On(hit), tk, o.quantity, 0);
    OwnSideAfter(o.side, b.On(o.side), o, r.left);
    var m := Match(b, o, clock).book;
    forall x, y | x in m.bids && y in m.asks ensures x.Price() < y.Price() {
      var taken, kept := if o.side.Buy? then y else x, if o.side.Buy? then x else y;
      SamePrice(b.On(hit), taken);
      if kept !in b.On(o.side) {
        FillExhausts(hit, b.On(hit), tk, o.quantity, 0, taken);
      }
    }
  }

  lemma SamePrice(f: seq<Order>, o: Order)
    requires Remnant(f, o)
    ensures exists x :: x in f && x.Price() == o.Price()
  {
    var x :| x in f && o == x.(quantity := o.quantity) && 0 < o.quantity <= x.quantity;
    assert x.Price() == o.Price();
  }

  lemma CancelKeepsBook(b: Book, id: u128)
    requires ValidBook(b)
    ensures ValidBook(Cancel(b, id))
    ensures Uncrossed(b) ==> Uncrossed(Cancel(b, id))
    ensures !Cancel(b, id).Holds(id)
  {
    WithoutKeepsSide(Buy, b.bids, id);
    WithoutKeepsSide(Sell, b.asks, id);
    WithoutMembers(b.bids, id);
    WithoutMembers(b.asks, id);
  }

  /** Resting an order directly keeps bids below asks if and only if no order on the
      other side meets its price. */
  lemma RestUncrossed(b: Book, o: Order)
    requires Uncrossed(b)
    ensures Uncrossed(b.With(o.side, Rest(o.side, b.On(o.side), o))) <==>
      forall x :: x in b.On(o.side.Opposite()) ==> Better(o.side, x.Price(), o.Price())
  {
    RestMembers(o.side, b.On(o.side), o);
    var own := Rest(o.side, b.On(o.side), o);
    assert o in own;
  }
}
