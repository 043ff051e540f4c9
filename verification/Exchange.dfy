/** Runs of the exchange: every sequence of submitted and cancelled orders over all
    markets, starting empty, and what each run keeps. */
module Exchange {
  import opened Types
  import opened PriceTime
  import opened Levels
  import opened Filling
  import opened Matching
  import opened Priority

  datatype Event = Submit(order: Order, clock: Clock) | Withdraw(pair: Pair, id: u128)

  /** The books and the trade log, with the history the properties speak of: every
      order accepted so far, what cancels took out, and remainders dropped. */
  datatype State = State(
    books: map<Pair, Book>,
    log: seq<Trade>,
    orders: seq<Order>,
    removed: seq<Order>,
    dropped: seq<Order>)

  const START := State(map[BTC_USD := EMPTY_BOOK, ETH_USD := EMPTY_BOOK], [], [], [], [])

  function ById(f: seq<Order>, id: u128): seq<Order> {
    if f == [] then []
    else if f[0].id == id then [f[0]] + ById(f[1..], id)
    else ById(f[1..], id)
  }

  predicate Accepted(s: State, e: Event) {
    match e
    case Submit(o, _) => o.quantity > 0 && o.pair in s.books
    case Withdraw(p, _) => p in s.books
  }

  /** A rejected request changes nothing. */
  function Step(s: State, e: Event): State {
    if !Accepted(s, e) then s else
    match e
    case Submit(o, clock) =>
      var m := Match(s.books[o.pair], o, clock);
      State(
        s.books[o.pair := m.book],
        s.log + m.trades,
        s.orders + [o],
        s.removed,
        if m.left > 0 && !Rests(o, m.left) then s.dropped + [o.(quantity := m.left)] else s.dropped)
    case Withdraw(p, id) =>
      var b := s.books[p];
      s.(books := s.books[p := Cancel(b, id)],
         removed := s.removed + (ById(b.bids, id) + ById(b.asks, id)))
  }

  function Run(es: seq<Event>): State {
    if es == [] then START else Step(Run(es[..|es| - 1]), es[|es| - 1])
  }

  /** The position of an order in the history: its arrival number. */
  function Arrival(orders: seq<Order>, id: u128): (n: nat)
    ensures n < |orders| <==> Has(orders, id)
    ensures n <= |orders|
    ensures n < |orders| ==> orders[n].id == id
  {
    if orders == [] then 0
    else if orders[0].id == id then
      assert orders[0] in orders;
      0
    else
      assert forall o :: o in orders <==> o == orders[0] || o in orders[1..];
      1 + Arrival(orders[1..], id)
  }

  /** The one thing asked of the caller: a submitted order has an id never used. */
  predicate Fresh(s: State, e: Event) {
    e.Submit? ==> !Has(s.orders, e.order.id)
  }

  predicate FreshRun(es: seq<Event>) {
    es == [] || (FreshRun(es[..|es| - 1]) && Fresh(Run(es[..|es| - 1]), es[|es| - 1]))
  }

  // --------------------------------------------------------------- arrival numbers

  lemma {:induction false} ArrivalAppend(orders: seq<Order>, o: Order, id: u128)
    ensures Arrival(orders, id) <= |orders|
    ensures Arrival(orders + [o], id) ==
      if Has(orders, id) then Arrival(orders, id) else if o.id == id then |orders| else |orders| + 1
  {
    if orders == [] {
      assert [o][1..] == [];
    } else {
      assert (orders + [o])[1..] == orders[1..] + [o];
      ArrivalAppend(orders[1..], o, id);
    }
  }

  // --------------------------------------------------------------- the invariant

  /** A resting order is one that was submitted to this market, less what it traded. */
  ghost predicate Origin(orders: seq<Order>, p: Pair, r: Order) {
    && Has(orders, r.id)
    && var o := orders[Arrival(orders, r.id)];
       o.pair == p && r == o.(quantity := r.quantity) && 0 < r.quantity <= o.quantity
  }

  ghost predicate OriginAll(orders: seq<Order>, p: Pair, f: seq<Order>) {
    forall r :: r in f ==> Origin(orders, p, r)
  }

  ghost predicate BookInv(orders: seq<Order>, p: Pair, b: Book) {
    ValidBook(b) && Uncrossed(b) && OriginAll(orders, p, b.bids) && OriginAll(orders, p, b.asks)
  }

  /** A logged trade is between two submitted orders of one market on opposite
      sides, the maker having arrived first. */
  ghost predicate TradeInv(orders: seq<Order>, t: Trade) {
    && Has(orders, t.makerId) && Has(orders, t.takerId)
    && var i, j := Arrival(orders, t.makerId), Arrival(orders, t.takerId);
       && i < j
       && orders[i].side == orders[j].side.Opposite()
       && orders[i].pair == orders[j].pair
       && t.symbol == orders[i].pair.Code()
  }

  /** No two trades are between the same two orders. */
  ghost predicate DistinctMatches(log: seq<Trade>) {
    forall i, j :: 0 <= i < j < |log| ==> log[i].makerId != log[j].makerId || log[i].takerId != log[j].takerId
  }

  ghost predicate AllKnown(orders: seq<Order>, f: seq<Order>) {
    forall r :: r in f ==> Has(orders, r.id)
  }

  ghost predicate Inv(s: State) {
    && DistinctIds(s.orders)
    && (forall o :: o in s.orders ==> o.pair in s.books)
    && (forall p :: p in s.books ==> BookInv(s.orders, p, s.books[p]))
    && (forall t :: t in s.log ==> TradeInv(s.orders, t))
    && DistinctMatches(s.log)
    && AllKnown(s.orders, s.removed) && AllKnown(s.orders, s.dropped)
  }

  lemma OriginGrows(orders: seq<Order>, o: Order, p: Pair, f: seq<Order>)
    requires OriginAll(orders, p, f)
    ensures OriginAll(orders + [o], p, f)
  {
    forall r | r in f ensures Origin(orders + [o], p, r) {
      assert Origin(orders, p, r);
      ArrivalAppend(orders, o, r.id);
    }
  }

  lemma TradeInvGrows(orders: seq<Order>, o: Order, t: Trade)
    requires TradeInv(orders, t)
    ensures TradeInv(orders + [o], t)
  {
    ArrivalAppend(orders, o, t.makerId);
    ArrivalAppend(orders, o, t.takerId);
  }

  lemma {:induction false} DistinctIdsAppend(f: seq<Order>, o: Order)
    requires DistinctIds(f) && !Has(f, o.id)
    ensures DistinctIds(f + [o])
  {
    if f == [] {
      assert [o][1..] == [];
    } else {
      assert (f + [o])[1..] == f[1..] + [o];
      assert f[0] in f && forall x :: x in f[1..] ==> x in f;
      DistinctIdsAppend(f[1..], o);
      assert forall x :: x in f[1..] + [o] <==> x in f[1..] || x == o;
    }
  }

  /** The trades of one match: who, where, and each maker once. */
  lemma MatchTrades(b: Book, o: Order, clock: Clock)
    requires ValidBook(b) && o.quantity > 0
    ensures var ts, f := Match(b, o, clock).trades, b.On(o.side.Opposite());
      && |ts| <= |f|
      && (forall i :: 0 <= i < |ts| ==>
        ts[i].takerId == o.id && ts[i].makerId == f[i].id && ts[i].symbol == f[i].pair.Code())
      && (forall i, j :: 0 <= i < j < |ts| ==> ts[i].makerId != ts[j].makerId)
  {
    var hit := o.side.Opposite();
    var f, tk := b.On(hit), TakerOf(o, clock);
    var ts := FillFrom(f, tk, o.quantity, 0).trades;
    FillIsGreedy(f, tk, o.quantity, 0);
    forall i | 0 <= i < |ts|
      ensures ts[i].takerId == o.id && ts[i].makerId == f[i].id && ts[i].symbol == f[i].pair.Code()
    {
      assert Takes(tk, 0 + i, f[i], ts[i]);
    }
    forall i, j | 0 <= i < j < |ts| ensures ts[i].makerId != ts[j].makerId {
      IndexedDistinct(f, i, j);
    }
  }

  lemma BookNotHolding(s: State, p: Pair, id: u128)
    requires Inv(s) && p in s.books && !Has(s.orders, id)
    ensures !s.books[p].Holds(id)
  {
    assert BookInv(s.orders, p, s.books[p]);
  }

  lemma RemnantOrigins(orders: seq<Order>, p: Pair, f: seq<Order>, g: seq<Order>)
    requires OriginAll(orders, p, f) && forall x :: x in g ==> Remnant(f, x)
    ensures OriginAll(orders, p, g)
  {
    forall x | x in g ensures Origin(orders, p, x) {
      var y :| y in f && x == y.(quantity := x.quantity) && 0 < x.quantity <= y.quantity;
      assert Origin(orders, p, y);
    }
  }

  lemma NewcomerOrigin(orders: seq<Order>, o: Order, left: u64)
    requires !Has(orders, o.id) && 0 < left <= o.quantity
    ensures Origin(orders + [o], o.pair, o.(quantity := left))
  {
    ArrivalAppend(orders, o, o.id);
  }

  lemma SubmitKeepsBook(s: State, o: Order, clock: Clock)
    requires Inv(s) && o.pair in s.books && o.quantity > 0 && !Has(s.orders, o.id)
    ensures BookInv(s.orders + [o], o.pair, Match(s.books[o.pair], o, clock).book)
  {
    var b := s.books[o.pair];
    assert BookInv(s.orders, o.pair, b);
    BookNotHolding(s, o.pair, o.id);
    MatchKeepsBook(b, o, clock);
    MatchKeepsUncrossed(b, o, clock);
    SubmitOrigins(s.orders, b, o, clock);
  }

  lemma HitSideOrigins(orders: seq<Order>, p: Pair, f: seq<Order>, o: Order, tk: Taker)
    requires ValidSide(tk.side, f) && OriginAll(orders, p, f)
    ensures OriginAll(orders + [o], p, FillFrom(f, tk, o.quantity, 0).book)
  {
    FillKeepsSide(tk.side, f, tk, o.quantity, 0);
    OriginGrows(orders, o, p, f);
    RemnantOrigins(orders + [o], p, f, FillFrom(f, tk, o.quantity, 0).book);
  }

  lemma OwnSideOrigins(orders: seq<Order>, f: seq<Order>, o: Order, left: u64)
    requires ValidSide(o.side, f) && !Has(f, o.id) && !Has(orders, o.id) && left <= o.quantity
    requires OriginAll(orders, o.pair, f)
    ensures OriginAll(orders + [o], o.pair, if Rests(o, left) then Rest(o.side, f, o.(quantity := left)) else f)
  {
    OwnSideAfter(o.side, f, o, left);
    OriginGrows(orders, o, o.pair, f);
    if Rests(o, left) {
      NewcomerOrigin(orders, o, left);
    }
  }

  lemma SubmitOrigins(orders: seq<Order>, b: Book, o: Order, clock: Clock)
    requires ValidBook(b) && !b.Holds(o.id) && !Has(orders, o.id)
    requires OriginAll(orders, o.pair, b.bids) && OriginAll(orders, o.pair, b.asks)
    ensures OriginAll(orders + [o], o.pair, Match(b, o, clock).book.bids)
    ensures OriginAll(orders + [o], o.pair, Match(b, o, clock).book.asks)
  {
    var hit, tk := o.side.Opposite(), TakerOf(o, clock);
    FillTotals(b.On(hit), tk, o.quantity, 0);
    HitSideOrigins(orders, o.pair, b.On(hit), o, tk);
    OwnSideOrigins(orders, b.On(o.side), o, FillFrom(b.On(hit), tk, o.quantity, 0).left);
  }

  lemma NewTrade(orders: seq<Order>, o: Order, maker: Order, t: Trade)
    requires Origin(orders, o.pair, maker) && !Has(orders, o.id) && maker.side == o.side.Opposite()
    requires t.makerId == maker.id && t.takerId == o.id && t.symbol == maker.pair.Code()
    ensures TradeInv(orders + [o], t)
  {
    ArrivalAppend(orders, o, o.id);
    ArrivalAppend(orders, o, maker.id);
  }

  lemma DistinctAppend(log: seq<Trade>, ts: seq<Trade>, taker: u128)
    requires DistinctMatches(log) && forall t :: t in log ==> t.takerId != taker
    requires forall i :: 0 <= i < |ts| ==> ts[i].takerId == taker
    requires forall i, j :: 0 <= i < j < |ts| ==> ts[i].makerId != ts[j].makerId
    ensures DistinctMatches(log + ts)
  {
    var all := log + ts;
    forall i, j | 0 <= i < j < |all| ensures all[i].makerId != all[j].makerId || all[i].takerId != all[j].takerId {
      if i < |log| <= j {
        assert log[i] in log;
        assert all[j] == ts[j - |log|];
      } else if |log| <= i {
        assert all[i] == ts[i - |log|] && all[j] == ts[j - |log|];
      }
    }
  }

  lemma SubmitKeepsLog(s: State, o: Order, clock: Clock)
    requires Inv(s) && o.pair in s.books && o.quantity > 0 && !Has(s.orders, o.id)
    ensures var log := s.log + Match(s.books[o.pair], o, clock).trades;
      && (forall t :: t in log ==> TradeInv(s.orders + [o], t))
      && DistinctMatches(log)
  {
    var b := s.books[o.pair];
    assert BookInv(s.orders, o.pair, b);
    var ts, f := Match(b, o, clock).trades, b.On(o.side.Opposite());
    MatchTrades(b, o, clock);
    forall t | t in s.log ensures TradeInv(s.orders + [o], t) && t.takerId != o.id {
      assert TradeInv(s.orders, t);
      TradeInvGrows(s.orders, o, t);
    }
    forall t | t in ts ensures TradeInv(s.orders + [o], t) {
      var i :| 0 <= i < |ts| && ts[i] == t;
      assert f[i] in f;
      NewTrade(s.orders, o, f[i], t);
    }
    DistinctAppend(s.log, ts, o.id);
  }

  lemma SubmitKeepsInv(s: State, o: Order, clock: Clock)
    requires Inv(s) && o.pair in s.books && o.quantity > 0 && !Has(s.orders, o.id)
    ensures Inv(Step(s, Submit(o, clock)))
  {
    var s' := Step(s, Submit(o, clock));
    SubmitKeepsBook(s, o, clock);
    SubmitKeepsLog(s, o, clock);
    DistinctIdsAppend(s.orders, o);
    forall p | p in s'.books ensures BookInv(s'.orders, p, s'.books[p]) {
      if p != o.pair {
        assert BookInv(s.orders, p, s.books[p]);
        OriginGrows(s.orders, o, p, s.books[p].bids);
        OriginGrows(s.orders, o, p, s.books[p].asks);
      }
    }
    forall r | r in s'.removed || r in s'.dropped ensures Has(s'.orders, r.id) {
      ArrivalAppend(s.orders, o, r.id);
    }
  }

  lemma {:induction false} ByIdMembers(f: seq<Order>, id: u128)
    ensures forall x :: x in ById(f, id) <==> x in f && x.id == id
  {
    if f != [] {
      ByIdMembers(f[1..], id);
    }
  }

  lemma WithdrawKeepsInv(s: State, p: Pair, id: u128)
    requires Inv(s) && p in s.books
    ensures Inv(Step(s, Withdraw(p, id)))
  {
    var b, s' := s.books[p], Step(s, Withdraw(p, id));
    assert BookInv(s.orders, p, b);
    CancelKeepsBook(b, id);
    WithoutMembers(b.bids, id);
    WithoutMembers(b.asks, id);
    ByIdMembers(b.bids, id);
    ByIdMembers(b.asks, id);
    forall r | r in s'.removed ensures Has(s'.orders, r.id) {
      assert r in s.removed || Origin(s.orders, p, r);
    }
    forall q | q in s'.books ensures BookInv(s'.orders, q, s'.books[q]) {
      assert q != p ==> BookInv(s.orders, q, s.books[q]);
    }
  }

  lemma StepKeepsInv(s: State, e: Event)
    requires Inv(s) && Fresh(s, e)
    ensures Inv(Step(s, e))
  {
    if Accepted(s, e) {
      match e
      case Submit(o, clock) => SubmitKeepsInv(s, o, clock);
      case Withdraw(p, id) => WithdrawKeepsInv(s, p, id);
    }
  }

  /** Every run keeps every book well formed and uncrossed, logs only trades between
      earlier and later orders of opposite sides, and no pair of orders twice. */
  lemma {:induction false} RunKeepsInv(es: seq<Event>)
    requires FreshRun(es)
    ensures Inv(Run(es))
  {
    if es != [] {
      RunKeepsInv(es[..|es| - 1]);
      StepKeepsInv(Run(es[..|es| - 1]), es[|es| - 1]);
    }
  }

  // -------------------------------------------------------------------- the ledger

  function BookQty(b: Book, id: u128): nat {
    Qty(b.bids, id) + Qty(b.asks, id)
  }

  /** Where every unit of an order is. */
  ghost predicate Balanced(s: State, o: Order) {
    && o.pair in s.books
    && o.quantity == MakerQty(s.log, o.id) + TakerQty(s.log, o.id) + BookQty(s.books[o.pair], o.id)
                   + Qty(s.removed, o.id) + Qty(s.dropped, o.id)
  }

  ghost predicate Ledger(s: State) {
    forall o :: o in s.orders ==> Balanced(s, o)
  }

  lemma {:induction false} QtyAppend(f: seq<Order>, g: seq<Order>, id: u128)
    ensures Qty(f + g, id) == Qty(f, id) + Qty(g, id)
  {
    if f == [] {
      assert f + g == g;
    } else {
      assert (f + g)[1..] == f[1..] + g;
      QtyAppend(f[1..], g, id);
    }
  }

  lemma {:induction false} QtyRest(side: Side, f: seq<Order>, o: Order, id: u128)
    ensures Qty(Rest(side, f, o), id) == Qty(f, id) + if o.id == id then o.quantity else 0
  {
    if f == [] || Better(side, o.Price(), f[0].Price()) {
      assert ([o] + f)[1..] == f;
    } else {
      QtyRest(side, f[1..], o, id);
    }
  }

  lemma {:induction false} QtyWithout(f: seq<Order>, id: u128, x: u128)
    ensures Qty(Without(f, id), x) + Qty(ById(f, id), x) == Qty(f, x)
  {
    if f != [] {
      QtyWithout(f[1..], id, x);
      assert ([f[0]] + Without(f[1..], id))[1..] == Without(f[1..], id);
      assert ([f[0]] + ById(f[1..], id))[1..] == ById(f[1..], id);
    }
  }

  /** One match, from the point of view of any order. */
  lemma MatchBalances(b: Book, o: Order, clock: Clock, id: u128)
    ensures var m := Match(b, o, clock);
      && MakerQty(m.trades, id) + BookQty(m.book, id) ==
         BookQty(b, id) + (if id == o.id && Rests(o, m.left) then m.left else 0)
      && TakerQty(m.trades, id) == (if id == o.id then o.quantity - m.left else 0)
  {
    var hit := o.side.Opposite();
    var f, tk := b.On(hit), TakerOf(o, clock);
    var r := FillFrom(f, tk, o.quantity, 0);
    FillMakers(f, tk, o.quantity, 0, id);
    FillTotals(f, tk, o.quantity, 0);
    FillTaker(f, tk, o.quantity, 0);
    TakerOnly(r.trades, o.id, id);
    QtyRest(o.side, b.On(o.side), o.(quantity := r.left), id);
  }

  lemma {:induction false} TakerQtyAbsent(ts: seq<Trade>, id: u128)
    requires forall t :: t in ts ==> t.takerId != id
    ensures TakerQty(ts, id) == 0
  {
    if ts != [] {
      assert ts[0] in ts && forall t :: t in ts[1..] ==> t in ts;
      TakerQtyAbsent(ts[1..], id);
    }
  }

  /** Nothing anywhere is under an id not yet used. */
  lemma UnknownIsNowhere(s: State, id: u128)
    requires Inv(s) && !Has(s.orders, id)
    ensures MakerQty(s.log, id) == 0 && TakerQty(s.log, id) == 0
    ensures Qty(s.removed, id) == 0 && Qty(s.dropped, id) == 0
    ensures forall p :: p in s.books ==> BookQty(s.books[p], id) == 0
  {
    forall t | t in s.log ensures t.makerId != id && t.takerId != id {
      assert TradeInv(s.orders, t);
    }
    MakerQtyAbsent(s.log, id);
    TakerQtyAbsent(s.log, id);
    QtyAbsent(s.removed, id);
    QtyAbsent(s.dropped, id);
    forall p | p in s.books ensures BookQty(s.books[p], id) == 0 {
      BookNotHolding(s, p, id);
      QtyAbsent(s.books[p].bids, id);
      QtyAbsent(s.books[p].asks, id);
    }
  }

  /** An order is in no book but its own market's. */
  lemma ElsewhereAbsent(s: State, o: Order, p: Pair)
    requires Inv(s) && o in s.orders && p in s.books && p != o.pair
    ensures BookQty(s.books[p], o.id) == 0
  {
    var b := s.books[p];
    assert BookInv(s.orders, p, b);
    if b.Holds(o.id) {
      var r :| (r in b.bids || r in b.asks) && r.id == o.id;
      assert Origin(s.orders, p, r);
      SameIdSameOrder(s.orders, o, s.orders[Arrival(s.orders, o.id)]);
    }
    QtyAbsent(b.bids, o.id);
    QtyAbsent(b.asks, o.id);
  }

  lemma SubmitBalances(s: State, o: Order, clock: Clock, x: Order)
    requires Inv(s) && Ledger(s) && o.pair in s.books && o.quantity > 0 && !Has(s.orders, o.id)
    requires x in s.orders || x == o
    ensures Balanced(Step(s, Submit(o, clock)), x)
  {
    var m := Match(s.books[o.pair], o, clock);
    MatchBalances(s.books[o.pair], o, clock, x.id);
    TotalsAppend(s.log, m.trades, x.id);
    QtyAppend(s.dropped, [o.(quantity := m.left)], x.id);
    assert [o.(quantity := m.left)][1..] == [];
    if x in s.orders {
      assert x.id != o.id && Balanced(s, x);
      if x.pair != o.pair {
        ElsewhereAbsent(s, x, o.pair);
      }
    } else {
      UnknownIsNowhere(s, o.id);
    }
  }

  lemma WithdrawBalances(s: State, p: Pair, id: u128, x: Order)
    requires Inv(s) && Ledger(s) && p in s.books && x in s.orders
    ensures Balanced(Step(s, Withdraw(p, id)), x)
  {
    var b := s.books[p];
    assert Balanced(s, x);
    QtyWithout(b.bids, id, x.id);
    QtyWithout(b.asks, id, x.id);
    QtyAppend(ById(b.bids, id), ById(b.asks, id), x.id);
    QtyAppend(s.removed, ById(b.bids, id) + ById(b.asks, id), x.id);
    if x.pair != p {
      ElsewhereAbsent(s, x, p);
    }
  }

  /** Conservation over runs: every unit of every order ever accepted was traded as
      taker, traded as maker, still rests, was cancelled, or was dropped. */
  lemma {:induction false} RunBalances(es: seq<Event>)
    requires FreshRun(es)
    ensures Ledger(Run(es))
  {
    if es != [] {
      var before, e := es[..|es| - 1], es[|es| - 1];
      var s := Run(before);
      RunBalances(before);
      RunKeepsInv(before);
      if Accepted(s, e) {
        forall x | x in Step(s, e).orders ensures Balanced(Step(s, e), x) {
          match e
          case Submit(o, clock) => SubmitBalances(s, o, clock, x);
          case Withdraw(p, id) => WithdrawBalances(s, p, id, x);
        }
      }
    }
  }
}
