/** Cancelling: what it undoes, and when it may change places with a match. */
module Commuting {
  import opened Types
  import opened PriceTime
  import opened Levels
  import opened Filling
  import opened Matching
  import opened Cancelling
  import opened Engine

  ghost predicate Untouched(ts: seq<Trade>, id: u128) {
    forall t :: t in ts ==> t.makerId != id
  }

  /** Orders behind one that is beyond the limit are beyond it too. */
  lemma NoneMayTake(side: Side, f: seq<Order>, tk: Taker, q: u64, k: nat, id: u128)
    requires Sorted(side, f) && tk.side == side && f != [] && !MayTake(tk, f[0])
    ensures FillFrom(Without(f, id), tk, q, k) == Fill([], Without(f, id), q)
  {
    var g := Without(f, id);
    if g != [] {
      WithoutMembers(f, id);
      assert g[0] in g;
      HeadIsBest(side, f, g[0]);
    }
  }

  lemma CutWithout(f: seq<Order>, q: u64, id: u128)
    requires f != [] && f[0].id != id && q <= f[0].quantity
    ensures Without(f, id) != [] && Without(f, id)[0] == f[0]
    ensures Cut(Without(f, id), q) == Without(Cut(f, q), id)
  {
    var h := f[0].(quantity := f[0].quantity - q);
    assert ([h] + f[1..])[1..] == f[1..];
    assert ([f[0]] + Without(f[1..], id))[1..] == Without(f[1..], id);
  }

  /** A fill that makes no trade with an order goes the same way without it. */
  lemma {:induction false} FillWithout(side: Side, f: seq<Order>, tk: Taker, q: u64, k: nat, id: u128)
    requires ValidSide(side, f) && tk.side == side
    requires Untouched(FillFrom(f, tk, q, k).trades, id)
    ensures FillFrom(Without(f, id), tk, q, k)
         == Fill(FillFrom(f, tk, q, k).trades, Without(FillFrom(f, tk, q, k).book, id), FillFrom(f, tk, q, k).left)
  {
    if f == [] {
    } else if !MayTake(tk, f[0]) {
      NoneMayTake(side, f, tk, q, k, id);
    } else {
      var t := Take(tk, k, f[0], Min(q, f[0].quantity));
      assert t == FillFrom(f, tk, q, k).trades[0];
      assert f[0].id != id;
      CutWithout(f, 0, id);
      if q <= f[0].quantity {
        CutWithout(f, q, id);
      } else {
        var q', n := q - f[0].quantity, k + 1;
        var s := FillFrom(f[1..], tk, q', n);
        FillStep(f, tk, q, k, q', n);
        assert forall x :: x in s.trades ==> x in [t] + s.trades;
        TailValid(side, f);
        FillWithout(side, f[1..], tk, q', n, id);
        assert Without(f, id)[1..] == Without(f[1..], id);
        FillStep(Without(f, id), tk, q, k, q', n);
      }
    }
  }

  lemma {:induction false} RestWithout(side: Side, f: seq<Order>, o: Order, id: u128)
    requires Sorted(side, f) && o.id != id
    ensures Rest(side, Without(f, id), o) == Without(Rest(side, f, o), id)
  {
    if f == [] {
      assert [o][1..] == [];
    } else if Better(side, o.Price(), f[0].Price()) {
      assert ([o] + f)[1..] == f;
      var g := Without(f, id);
      if g != [] {
        WithoutMembers(f, id);
        assert g[0] in g;
        HeadIsBest(side, f, g[0]);
      }
    } else {
      RestWithout(side, f[1..], o, id);
      var g := [f[0]] + Rest(side, f[1..], o);
      assert g[1..] == Rest(side, f[1..], o);
      if f[0].id != id {
        var h := [f[0]] + Without(f[1..], id);
        assert h[1..] == Without(f[1..], id) && h[0] == f[0];
      } else {
        assert Without(g, id) == Without(g[1..], id);
      }
    }
  }

  /** Cancelling an order that a match does not trade with may be done before or
      after the match: same trades, same book. */
  lemma MatchCancelCommute(b: Book, o: Order, clock: Clock, id: u128)
    requires ValidBook(b) && !b.Holds(o.id) && id != o.id
    requires Untouched(Match(b, o, clock).trades, id)
    ensures Match(Cancel(b, id), o, clock).trades == Match(b, o, clock).trades
    ensures Match(Cancel(b, id), o, clock).left == Match(b, o, clock).left
    ensures Match(Cancel(b, id), o, clock).book == Cancel(Match(b, o, clock).book, id)
  {
    var hit, own := o.side.Opposite(), o.side;
    FillWithout(hit, b.On(hit), TakerOf(o, clock), o.quantity, 0, id);
    var left := FillFrom(b.On(hit), TakerOf(o, clock), o.quantity, 0).left;
    RestWithout(own, b.On(own), o.(quantity := left), id);
  }

  lemma SameMaps(a: OrderBook, b: OrderBook)
    requires a.Valid() && b.Valid() && a.View() == b.View()
    ensures a.bids == b.bids && a.asks == b.asks
  {
    FlatInjective(Buy, a.bids, b.bids);
    FlatInjective(Sell, a.asks, b.asks);
  }

  /** The same on the maps themselves, level for level: two equal order books are
      equal again after the two calls in either order. */
  method MatchAndCancel(a: OrderBook, b: OrderBook, order: Order, clock: Clock, id: u128)
    returns (trades: seq<Trade>, found: bool)
    requires a != b && a.Valid() && b.Valid() && a.bids == b.bids && a.asks == b.asks
    requires ValidBook(a.View()) && !a.View().Holds(order.id) && id != order.id
    requires Untouched(Match(a.View(), order, clock).trades, id)
    modifies a, b
    ensures a.bids == b.bids && a.asks == b.asks
    ensures trades == Match(old(a.View()), order, clock).trades
    ensures found <==> old(a.View()).Holds(id)
  {
    MatchCancelCommute(a.View(), order, clock, id);
    MatchKeepsBook(a.View(), order, clock);
    CancelFirstIsCancel(a.View(), id);
    CancelFirstIsCancel(Match(a.View(), order, clock).book, id);
    trades := a.MatchOrder(order, clock);
    var _ := a.CancelOrder(id);
    found := b.CancelOrder(id);
    var same := b.MatchOrder(order, clock);
    assert same == trades;
    SameMaps(a, b);
  }

  lemma {:induction false} WithoutRest(side: Side, f: seq<Order>, o: Order)
    requires !Has(f, o.id)
    ensures Without(Rest(side, f, o), o.id) == f
  {
    if f == [] || Better(side, o.Price(), f[0].Price()) {
      assert ([o] + f)[1..] == f;
      WithoutAbsent(f, o.id);
    } else {
      assert f[0] in f && forall x :: x in f[1..] ==> x in f;
      WithoutRest(side, f[1..], o);
      assert ([f[0]] + Rest(side, f[1..], o))[1..] == Rest(side, f[1..], o);
    }
  }

  /** Cancelling an order just matched takes back what it rested and nothing of what
      it traded; if it traded nothing, the book is exactly what it was. */
  lemma CancelUndoesRest(b: Book, o: Order, clock: Clock)
    requires ValidBook(b) && !b.Holds(o.id)
    ensures var m := Match(b, o, clock);
      && Cancel(m.book, o.id) == b.With(o.side.Opposite(), m.book.On(o.side.Opposite()))
      && (m.trades == [] ==> Cancel(m.book, o.id) == b)
      && (m.book.Holds(o.id) <==> Rests(o, m.left))
  {
    var hit, own := o.side.Opposite(), o.side;
    var r := FillFrom(b.On(hit), TakerOf(o, clock), o.quantity, 0);
    var m := Match(b, o, clock);
    FillKeepsSide(hit, b.On(hit), TakerOf(o, clock), o.quantity, 0);
    WithoutAbsent(r.book, o.id);
    if Rests(o, r.left) {
      var rest := o.(quantity := r.left);
      WithoutRest(own, b.On(own), rest);
      RestMembers(own, b.On(own), rest);
      assert rest in m.book.On(own);
    } else {
      WithoutAbsent(b.On(own), o.id);
    }
  }

  /** The round trip on the maps: cancelling an order just matched leaves what it took
      taken and nothing else changed, and if it traded nothing the maps are the earlier
      ones, with no empty level left behind. */
  method MatchThenCancel(book: OrderBook, order: Order, clock: Clock) returns (trades: seq<Trade>, found: bool)
    requires book.Valid() && ValidBook(book.View()) && !book.View().Holds(order.id)
    modifies book
    ensures book.Valid()
    ensures trades == Match(old(book.View()), order, clock).trades
    ensures found <==> Rests(order, Match(old(book.View()), order, clock).left)
    ensures var hit := order.side.Opposite();
      book.View() == old(book.View()).With(hit, Match(old(book.View()), order, clock).book.On(hit))
    ensures trades == [] ==> book.bids == old(book.bids) && book.asks == old(book.asks)
  {
    ghost var before, m := book.View(), Match(book.View(), order, clock);
    CancelUndoesRest(before, order, clock);
    MatchKeepsBook(before, order, clock);
    CancelFirstIsCancel(m.book, order.id);
    trades := book.MatchOrder(order, clock);
    found := book.CancelOrder(order.id);
    if trades == [] {
      FlatInjective(Buy, book.bids, old(book.bids));
      FlatInjective(Sell, book.asks, old(book.asks));
    }
  }

  /** A limit order that no order on the other side meets trades nothing. */
  lemma NonCrossing(b: Book, o: Order, clock: Clock)
    requires forall x :: x in b.On(o.side.Opposite()) ==> !MayTake(TakerOf(o, clock), x)
    ensures Match(b, o, clock).trades == []
  {
    var f := b.On(o.side.Opposite());
    if f != [] {
      assert f[0] in f;
    }
  }
}
