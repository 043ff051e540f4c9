/** Two more facts about whole runs: every sale is a purchase, and at every moment
    each queue stands in order of arrival, so that matching is fair. */
module History {
  import opened Types
  import opened PriceTime
  import opened Levels
  import opened Filling
  import opened Matching
  import opened Priority
  import opened Exchange

  // ------------------------------------------------------------- bought and sold

  /** What the orders of one side have traded, in either role. */
  function SideFilled(orders: seq<Order>, side: Side, log: seq<Trade>): nat {
    if orders == [] then 0
    else
      var o, rest := orders[0], SideFilled(orders[1..], side, log);
      if o.side == side then MakerQty(log, o.id) + TakerQty(log, o.id) + rest else rest
  }

  lemma {:induction false} SideFilledAppend(orders: seq<Order>, side: Side, a: seq<Trade>, b: seq<Trade>)
    ensures SideFilled(orders, side, a + b) == SideFilled(orders, side, a) + SideFilled(orders, side, b)
  {
    if orders != [] {
      TotalsAppend(a, b, orders[0].id);
      SideFilledAppend(orders[1..], side, a, b);
    }
  }

  lemma {:induction false} SideFilledEmpty(orders: seq<Order>, side: Side)
    ensures SideFilled(orders, side, []) == 0
  {
    if orders != [] {
      SideFilledEmpty(orders[1..], side);
    }
  }

  ghost predicate OnSide(orders: seq<Order>, id: u128, side: Side) {
    Has(orders, id) && orders[Arrival(orders, id)].side == side
  }

  lemma OnSideTail(orders: seq<Order>, id: u128, side: Side)
    requires DistinctIds(orders) && orders != []
    ensures OnSide(orders, id, side) <==>
      if orders[0].id == id then orders[0].side == side else OnSide(orders[1..], id, side)
    ensures orders[0].id == id ==> !OnSide(orders[1..], id, side)
  {
    assert orders[0] in orders && forall o :: o in orders <==> o == orders[0] || o in orders[1..];
  }

  /** One trade counts once for each party that is on the side. */
  lemma {:induction false} OneTrade(orders: seq<Order>, side: Side, t: Trade)
    requires DistinctIds(orders) && t.makerId != t.takerId
    ensures SideFilled(orders, side, [t]) ==
      (if OnSide(orders, t.makerId, side) then t.quantity else 0) +
      (if OnSide(orders, t.takerId, side) then t.quantity else 0)
  {
    if orders != [] {
      OneTrade(orders[1..], side, t);
      TotalsOfOne(t, orders[0].id);
      OnSideTail(orders, t.makerId, side);
      OnSideTail(orders, t.takerId, side);
    }
  }

  /** The parties to a logged trade are on opposite sides. */
  lemma OneParty(orders: seq<Order>, side: Side, t: Trade)
    requires DistinctIds(orders) && TradeInv(orders, t)
    ensures SideFilled(orders, side, [t]) == t.quantity
  {
    OneTrade(orders, side, t);
  }

  lemma {:induction false} EachSideOnce(orders: seq<Order>, side: Side, log: seq<Trade>)
    requires DistinctIds(orders) && forall t :: t in log ==> TradeInv(orders, t)
    ensures SideFilled(orders, side, log) == Total(log)
  {
    if log == [] {
      SideFilledEmpty(orders, side);
    } else {
      var t := log[0];
      assert t in log && forall x :: x in log[1..] ==> x in log;
      EachSideOnce(orders, side, log[1..]);
      SideFilledAppend(orders, side, [t], log[1..]);
      assert [t] + log[1..] == log;
      OneParty(orders, side, t);
    }
  }

  /** Over every run the buyers together bought what the sellers together sold. */
  lemma BoughtIsSold(es: seq<Event>)
    requires FreshRun(es)
    ensures var s := Run(es);
      SideFilled(s.orders, Buy, s.log) == Total(s.log) == SideFilled(s.orders, Sell, s.log)
  {
    RunKeepsInv(es);
    EachSideOnce(Run(es).orders, Buy, Run(es).log);
    EachSideOnce(Run(es).orders, Sell, Run(es).log);
  }

  // ------------------------------------------------------------ order of arrival

  /** `x` has priority over `y`: a better price, or the same price and earlier. */
  ghost predicate Ahead(side: Side, orders: seq<Order>, x: Order, y: Order) {
    || Better(side, x.Price(), y.Price())
    || (x.Price() == y.Price() && Arrival(orders, x.id) < Arrival(orders, y.id))
  }

  ghost predicate AheadOfAll(side: Side, orders: seq<Order>, x: Order, f: seq<Order>) {
    forall y :: y in f ==> Ahead(side, orders, x, y)
  }

  ghost predicate Queued(side: Side, orders: seq<Order>, f: seq<Order>) {
    f == [] || (AheadOfAll(side, orders, f[0], f[1..]) && Queued(side, orders, f[1..]))
  }

  ghost predicate QueuedBook(orders: seq<Order>, b: Book) {
    Queued(Buy, orders, b.bids) && Queued(Sell, orders, b.asks)
  }

  ghost predicate QueueInv(s: State) {
    forall p :: p in s.books ==> QueuedBook(s.orders, s.books[p])
  }

  lemma {:induction false} QueuedGrows(side: Side, orders: seq<Order>, o: Order, f: seq<Order>)
    requires Queued(side, orders, f) && AllKnown(orders, f)
    ensures Queued(side, orders + [o], f)
  {
    if f != [] {
      assert f[0] in f && forall y :: y in f[1..] ==> y in f;
      QueuedGrows(side, orders, o, f[1..]);
      forall y | y in f[1..] ensures Ahead(side, orders + [o], f[0], y) {
        assert Ahead(side, orders, f[0], y);
        ArrivalAppend(orders, o, f[0].id);
        ArrivalAppend(orders, o, y.id);
      }
    }
  }

  lemma {:induction false} QueuedWithout(side: Side, orders: seq<Order>, f: seq<Order>, id: u128)
    requires Queued(side, orders, f)
    ensures Queued(side, orders, Without(f, id))
  {
    if f != [] {
      QueuedWithout(side, orders, f[1..], id);
      WithoutMembers(f[1..], id);
      assert ([f[0]] + Without(f[1..], id))[1..] == Without(f[1..], id);
    }
  }

  lemma {:induction false} QueuedFill(side: Side, orders: seq<Order>, f: seq<Order>, tk: Taker, q: u64, k: nat)
    requires Queued(side, orders, f)
    ensures Queued(side, orders, FillFrom(f, tk, q, k).book)
  {
    if f != [] && MayTake(tk, f[0]) {
      if q > f[0].quantity {
        QueuedFill(side, orders, f[1..], tk, q - f[0].quantity, k + 1);
      } else if q < f[0].quantity {
        var h := f[0].(quantity := f[0].quantity - q);
        assert ([h] + f[1..])[1..] == f[1..];
        forall y | y in f[1..] ensures Ahead(side, orders, h, y) {
          assert Ahead(side, orders, f[0], y);
        }
      }
    }
  }

  /** A newcomer is behind every order already there. */
  lemma {:induction false} QueuedRest(side: Side, orders: seq<Order>, f: seq<Order>, o: Order)
    requires Sorted(side, f) && Queued(side, orders, f)
    requires forall x :: x in f ==> Arrival(orders, x.id) < Arrival(orders, o.id)
    ensures Queued(side, orders, Rest(side, f, o))
  {
    if f == [] || Better(side, o.Price(), f[0].Price()) {
      assert ([o] + f)[1..] == f;
      forall y | y in f ensures Ahead(side, orders, o, y) {
        HeadIsBest(side, f, y);
      }
    } else {
      assert f[0] in f && forall y :: y in f[1..] ==> y in f;
      QueuedRest(side, orders, f[1..], o);
      RestMembers(side, f[1..], o);
      assert ([f[0]] + Rest(side, f[1..], o))[1..] == Rest(side, f[1..], o);
    }
  }

  lemma OriginsKnown(orders: seq<Order>, p: Pair, f: seq<Order>)
    requires OriginAll(orders, p, f)
    ensures AllKnown(orders, f)
  {
    forall r | r in f ensures Has(orders, r.id) {
      assert Origin(orders, p, r);
    }
  }

  lemma FilledSideQueued(orders: seq<Order>, f: seq<Order>, o: Order, tk: Taker, q: u64)
    requires Queued(tk.side, orders, f) && AllKnown(orders, f)
    ensures Queued(tk.side, orders + [o], FillFrom(f, tk, q, 0).book)
  {
    QueuedGrows(tk.side, orders, o, f);
    QueuedFill(tk.side, orders + [o], f, tk, q, 0);
  }

  lemma OwnSideQueued(orders: seq<Order>, f: seq<Order>, o: Order, left: u64)
    requires Sorted(o.side, f) && Queued(o.side, orders, f) && AllKnown(orders, f) && !Has(orders, o.id)
    ensures Queued(o.side, orders + [o], f)
    ensures Queued(o.side, orders + [o], Rest(o.side, f, o.(quantity := left)))
  {
    QueuedGrows(o.side, orders, o, f);
    ArrivalAppend(orders, o, o.id);
    forall x | x in f ensures Arrival(orders + [o], x.id) < Arrival(orders + [o], o.id) {
      ArrivalAppend(orders, o, x.id);
    }
    QueuedRest(o.side, orders + [o], f, o.(quantity := left));
  }

  lemma MatchKeepsQueued(orders: seq<Order>, b: Book, o: Order, clock: Clock)
    requires QueuedBook(orders, b) && ValidBook(b) && !Has(orders, o.id)
    requires AllKnown(orders, b.bids) && AllKnown(orders, b.asks)
    ensures QueuedBook(orders + [o], Match(b, o, clock).book)
  {
    var hit, tk := o.side.Opposite(), TakerOf(o, clock);
    var r := FillFrom(b.On(hit), tk, o.quantity, 0);
    var own := OwnAfter(b, o, r.left);
    FilledSideQueued(orders, b.On(hit), o, tk, o.quantity);
    OwnAfterQueued(orders, b, o, r.left);
    MatchSides(b, o, clock, r, own);
    SidesQueued(orders + [o], o.side, Match(b, o, clock).book, own, r.book);
  }

  function OwnAfter(b: Book, o: Order, left: u64): seq<Order> {
    if Rests(o, left) then Rest(o.side, b.On(o.side), o.(quantity := left)) else b.On(o.side)
  }

  lemma OwnAfterQueued(orders: seq<Order>, b: Book, o: Order, left: u64)
    requires QueuedBook(orders, b) && ValidBook(b) && !Has(orders, o.id) && AllKnown(orders, b.On(o.side))
    ensures Queued(o.side, orders + [o], OwnAfter(b, o, left))
  {
    OwnSideQueued(orders, b.On(o.side), o, left);
  }

  lemma MatchSides(b: Book, o: Order, clock: Clock, r: Fill, own: seq<Order>)
    requires r == FillFrom(b.On(o.side.Opposite()), TakerOf(o, clock), o.quantity, 0)
    requires own == OwnAfter(b, o, r.left)
    ensures Match(b, o, clock).book.On(o.side) == own
    ensures Match(b, o, clock).book.On(o.side.Opposite()) == r.book
  {
  }

  lemma SidesQueued(orders: seq<Order>, side: Side, b: Book, own: seq<Order>, hit: seq<Order>)
    requires b.On(side) == own && b.On(side.Opposite()) == hit
    requires Queued(side, orders, own) && Queued(side.Opposite(), orders, hit)
    ensures QueuedBook(orders, b)
  {
  }

  lemma SubmitKeepsQueued(s: State, o: Order, clock: Clock)
    requires Inv(s) && QueueInv(s) && o.pair in s.books && !Has(s.orders, o.id)
    ensures QueuedBook(s.orders + [o], Match(s.books[o.pair], o, clock).book)
  {
    var b := s.books[o.pair];
    assert BookInv(s.orders, o.pair, b);
    OriginsKnown(s.orders, o.pair, b.bids);
    OriginsKnown(s.orders, o.pair, b.asks);
    MatchKeepsQueued(s.orders, b, o, clock);
  }

  lemma StepKeepsQueued(s: State, e: Event)
    requires Inv(s) && QueueInv(s) && Fresh(s, e)
    ensures QueueInv(Step(s, e))
  {
    if Accepted(s, e) {
      match e
      case Withdraw(p, id) =>
        QueuedWithout(Buy, s.orders, s.books[p].bids, id);
        QueuedWithout(Sell, s.orders, s.books[p].asks, id);
      case Submit(o, clock) =>
        SubmitKeepsQueued(s, o, clock);
        forall p | p in s.books && p != o.pair
          ensures QueuedBook(s.orders + [o], s.books[p])
        {
          assert QueuedBook(s.orders, s.books[p]);
          assert BookInv(s.orders, p, s.books[p]);
          OriginsKnown(s.orders, p, s.books[p].bids);
          OriginsKnown(s.orders, p, s.books[p].asks);
          QueuedGrows(Buy, s.orders, o, s.books[p].bids);
          QueuedGrows(Sell, s.orders, o, s.books[p].asks);
        }
    }
  }

  /** In every run each side of every book stands in price-time order, with time
      meaning order of submission. */
  lemma {:induction false} RunKeepsQueued(es: seq<Event>)
    requires FreshRun(es)
    ensures QueueInv(Run(es))
  {
    if es != [] {
      RunKeepsQueued(es[..|es| - 1]);
      RunKeepsInv(es[..|es| - 1]);
      StepKeepsQueued(Run(es[..|es| - 1]), es[|es| - 1]);
    }
  }

  lemma {:induction false} QueuedIndex(side: Side, orders: seq<Order>, f: seq<Order>, i: nat, j: nat)
    requires Queued(side, orders, f) && i < j < |f|
    ensures Ahead(side, orders, f[i], f[j])
  {
    if i == 0 {
      assert f[1..][j - 1] in f[1..];
    } else {
      QueuedIndex(side, orders, f[1..], i - 1, j - 1);
    }
  }

  lemma {:induction false} MakerQtyPositive(ts: seq<Trade>, i: nat)
    requires i < |ts| && ts[i].quantity > 0
    ensures MakerQty(ts, ts[i].makerId) > 0
  {
    if i > 0 {
      MakerQtyPositive(ts[1..], i - 1);
    }
  }

  lemma FairFill(side: Side, orders: seq<Order>, f: seq<Order>, tk: Taker, q: u64, x: Order, y: Order)
    requires ValidSide(side, f) && Queued(side, orders, f) && tk.side == side && q > 0
    requires x in f && y in f && Ahead(side, orders, y, x)
    requires exists t :: t in FillFrom(f, tk, q, 0).trades && t.makerId == x.id
    ensures MakerQty(FillFrom(f, tk, q, 0).trades, y.id) == y.quantity
    ensures Qty(FillFrom(f, tk, q, 0).book, y.id) == 0
  {
    var i :| 0 <= i < |f| && f[i] == y;
    var j :| 0 <= j < |f| && f[j] == x;
    if j < i {
      QueuedIndex(side, orders, f, j, i);
    }
    assert i < j;
    TradePositive(f, tk, q, x.id);
    ServedInOrder(side, f, tk, q, 0, i, j);
  }

  lemma TradePositive(f: seq<Order>, tk: Taker, q: u64, id: u128)
    requires AllPositive(f) && q > 0
    requires exists t :: t in FillFrom(f, tk, q, 0).trades && t.makerId == id
    ensures MakerQty(FillFrom(f, tk, q, 0).trades, id) > 0
  {
    var ts := FillFrom(f, tk, q, 0).trades;
    var n :| 0 <= n < |ts| && ts[n].makerId == id;
    FillIsGreedy(f, tk, q, 0);
    assert Takes(tk, 0 + n, f[n], ts[n]);
    MakerQtyPositive(ts, n);
  }

  /** Fairness over runs: when an incoming order trades with resting order `x`, every
      resting order with priority over `x` is completely filled by that same order. */
  lemma RunIsFair(es: seq<Event>, o: Order, clock: Clock, x: Order, y: Order)
    requires FreshRun(es) && o.pair in Run(es).books && o.quantity > 0
    requires var f := Run(es).books[o.pair].On(o.side.Opposite()); x in f && y in f
    requires Ahead(o.side.Opposite(), Run(es).orders, y, x)
    requires exists t :: t in Match(Run(es).books[o.pair], o, clock).trades && t.makerId == x.id
    ensures var m := Match(Run(es).books[o.pair], o, clock);
      MakerQty(m.trades, y.id) == y.quantity && Qty(m.book.On(o.side.Opposite()), y.id) == 0
  {
    var s, hit := Run(es), o.side.Opposite();
    RunKeepsInv(es);
    RunKeepsQueued(es);
    assert BookInv(s.orders, o.pair, s.books[o.pair]);
    FairFill(hit, s.orders, s.books[o.pair].On(hit), TakerOf(o, clock), o.quantity, x, y);
  }
}
