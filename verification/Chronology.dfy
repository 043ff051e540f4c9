/** When the stored history of a market is in order of execution. Keys begin with the
    clock reading, and the clock may repeat or go backwards. */
module Chronology {
  import opened Types
  import opened Ordered
  import opened PriceTime
  import Exchange
  import Watchers
  import opened Keys
  import opened TradeStore
  import opened Paging
  import opened Accounts
  import opened Interleavings

  /** By clock reading, then maker, then taker. */
  ghost predicate InTime(t: Trade, u: Trade) {
    || t.timestamp < u.timestamp
    || (t.timestamp == u.timestamp && t.makerId < u.makerId)
    || (t.timestamp == u.timestamp && t.makerId == u.makerId && t.takerId < u.takerId)
  }

  ghost predicate AllInTime(ts: seq<Trade>) {
    forall i, j :: 0 <= i < j < |ts| ==> InTime(ts[i], ts[j])
  }

  lemma {:induction false} SymbolMembers(ts: seq<Trade>, symbol: Bytes, t: Trade)
    ensures t in Watchers.OfSymbol(ts, symbol) <==> t in ts && t.symbol == symbol
  {
    if ts != [] {
      var front, last := ts[..|ts| - 1], ts[|ts| - 1];
      assert ts == front + [last];
      SymbolMembers(front, symbol, t);
    }
  }

  lemma {:induction false} SymbolDistinct(ts: seq<Trade>, symbol: Bytes)
    requires Exchange.DistinctMatches(ts)
    ensures Exchange.DistinctMatches(Watchers.OfSymbol(ts, symbol))
  {
    if ts != [] {
      var n := |ts| - 1;
      var rest := Watchers.OfSymbol(ts[..n], symbol);
      SymbolDistinct(ts[..n], symbol);
      forall t | t in rest ensures t.makerId != ts[n].makerId || t.takerId != ts[n].takerId {
        SymbolMembers(ts[..n], symbol, t);
        var i :| 0 <= i < n && ts[i] == t;
      }
    }
  }

  lemma TradesAreOrdered()
    ensures PartialOrder(TradeOrder())
  {
  }

  /** Between different matches, price and quantity never decide the order. */
  lemma {:induction false} InTimeAscends(ts: seq<Trade>)
    requires Exchange.DistinctMatches(ts)
    ensures Ascending(TradeOrder(), ts) <==> AllInTime(ts)
  {
    if Ascending(TradeOrder(), ts) {
      forall i, j | 0 <= i < j < |ts| ensures InTime(ts[i], ts[j]) {
        AscendingAt(TradeOrder(), ts, i, j);
        assert TradeOrder()(ts[i], ts[j]);
      }
    }
    if AllInTime(ts) && ts != [] {
      InTimeAscends(ts[1..]);
      forall t | t in ts[1..] ensures TradeOrder()(ts[0], t) {
        var j :| 0 <= j < |ts[1..]| && ts[1..][j] == t;
        assert InTime(ts[0], ts[j + 1]);
      }
    }
  }

  lemma FiledIsColonFree(s: Exchange.State, db: Db)
    requires (forall t :: t in s.log ==> Exchange.TradeInv(s.orders, t)) && DbOk(db, s.log)
    ensures Consistent(db) && AllColonFree(db)
  {
    forall k | k in db ensures ColonFree(db[k].symbol) {
      assert Exchange.TradeInv(s.orders, db[k]);
      var p := s.orders[Exchange.Arrival(s.orders, db[k].makerId)].pair;
      PairCodes(p, p);
    }
  }

  lemma FiledMember(db: Db, log: seq<Trade>, symbol: Bytes, t: Trade)
    requires DbOk(db, log)
    ensures t.symbol == symbol && EncodeKey(symbol, t) in db <==> t in Watchers.OfSymbol(log, symbol)
  {
    SymbolMembers(log, symbol, t);
    if t.symbol == symbol && KeyOf(t) in db {
      KeyInjective(t, db[KeyOf(t)]);
    }
  }

  lemma FiledHistory(db: Db, log: seq<Trade>, symbol: Bytes, made: seq<Trade>)
    requires DbOk(db, log) && Exchange.DistinctMatches(log) && Clean(db, symbol)
    requires made == Watchers.OfSymbol(log, symbol)
    ensures forall t :: t in History(db, symbol) <==> t in made
    ensures History(db, symbol) == made <==> AllInTime(made)
  {
    HistoryIs(db, symbol);
    forall t ensures t in History(db, symbol) <==> t in made {
      FiledMember(db, log, symbol, t);
    }
    SymbolDistinct(log, symbol);
    InTimeAscends(made);
    if AllInTime(made) {
      TradesAreOrdered();
      AscendingIsUnique(TradeOrder(), History(db, symbol), made);
    }
  }

  /** The stored history of a market is its part of the trade log, in the order in
      which the trades were made, if and only if the clock never went backwards from
      one of its trades to a later one, and wherever it stood still the later trade had
      the greater maker id, or the same maker and the greater taker id. */
  lemma HistoryIsExecutionOrder(es: seq<Exchange.Event>, p: Pair)
    requires Exchange.FreshRun(es)
    ensures var log := Exchange.Run(es).log;
      var made := Watchers.OfSymbol(log, p.Code());
      && (forall t :: t in History(InsertAll(map[], log), p.Code()) <==> t in made)
      && (History(InsertAll(map[], log), p.Code()) == made <==> AllInTime(made))
  {
    var s, symbol := Exchange.Run(es), p.Code();
    var db := InsertAll(map[], s.log);
    Exchange.RunKeepsInv(es);
    ArchiveKeepsAll(es);
    FiledIsColonFree(s, db);
    PairCodes(p, p);
    CleanIfColonFree(db, symbol);
    FiledHistory(db, s.log, symbol, Watchers.OfSymbol(s.log, symbol));
  }

  lemma RunOfThree(e1: Exchange.Event, e2: Exchange.Event, e3: Exchange.Event)
    ensures var s1 := Exchange.Step(Exchange.START, e1);
      var s2 := Exchange.Step(s1, e2);
      && Exchange.Run([e1, e2, e3]) == Exchange.Step(s2, e3)
      && (Exchange.Fresh(Exchange.START, e1) && Exchange.Fresh(s1, e2) && Exchange.Fresh(s2, e3) ==>
            Exchange.FreshRun([e1, e2, e3]))
  {
    assert [e1, e2, e3][..2] == [e1, e2] && [e1, e2][..1] == [e1] && [e1][..0] == [];
    assert Exchange.Run([e1]) == Exchange.Step(Exchange.START, e1);
    assert Exchange.Run([e1, e2]) == Exchange.Step(Exchange.Run([e1]), e2);
    assert Exchange.FreshRun([e1]) <==> Exchange.Fresh(Exchange.START, e1);
    assert Exchange.FreshRun([e1, e2]) <==> Exchange.FreshRun([e1]) && Exchange.Fresh(Exchange.Run([e1]), e2);
  }

  /** A sell order that finds no bids rests. */
  lemma AskRests(s: Exchange.State, o: Order, clock: Clock)
    requires o.pair in s.books && s.books[o.pair].bids == []
    requires o.side == Sell && o.orderType == Limit && o.price.Some? && o.quantity > 0
    ensures Exchange.Step(s, Exchange.Submit(o, clock)) ==
      s.(books := s.books[o.pair := Book([], Rest(Sell, s.books[o.pair].asks, o))], orders := s.orders + [o])
  {
  }

  lemma TakesTwo(s: Exchange.State, a: Order, b: Order, o: Order, clock: Clock)
    requires o.pair in s.books && s.books[o.pair].asks == [a, b]
    requires o.side == Buy && o.orderType == Market && o.quantity == a.quantity + b.quantity && b.quantity > 0
    ensures var tk := TakerOf(o, clock);
      Exchange.Step(s, Exchange.Submit(o, clock)).log ==
      s.log + [Take(tk, 0, a, a.quantity), Take(tk, 1, b, b.quantity)]
  {
    var tk := TakerOf(o, clock);
    assert [a, b][1..] == [b];
    var q, k := b.quantity, 1;
    assert FillFrom([b], tk, q, k).trades == [Take(tk, 1, b, b.quantity)];
    assert q == o.quantity - a.quantity && k == 0 + 1;
    assert FillFrom([a, b], tk, o.quantity, 0) == FillFrom([b], tk, q, k).After([Take(tk, 0, a, a.quantity)]);
  }

  function AfterTwo(a: Order, b: Order, clock: Clock): Exchange.State {
    Exchange.Step(Exchange.Step(Exchange.START, Exchange.Submit(a, clock)), Exchange.Submit(b, clock))
  }

  /** Two sell orders at one price rest behind each other. */
  lemma TwoAsks(a: Order, b: Order, clock: Clock)
    requires a.pair == b.pair == BTC_USD && a.side == b.side == Sell && a.orderType == b.orderType == Limit
    requires a.price == b.price && a.price.Some? && a.quantity > 0 && b.quantity > 0
    ensures var s2 := AfterTwo(a, b, clock);
      BTC_USD in s2.books && s2.books[BTC_USD].asks == [a, b] && s2.orders == [a, b] && s2.log == []
  {
    var s1 := Exchange.Step(Exchange.START, Exchange.Submit(a, clock));
    AskRests(Exchange.START, a, clock);
    assert s1.books[BTC_USD] == Book([], [a]) && s1.orders == [a] && s1.log == [];
    AskRests(s1, b, clock);
    assert [a][1..] == [];
  }

  lemma FreshThree(a: Order, b: Order, o: Order, clock: Clock)
    requires a.id != b.id && a.id != o.id && b.id != o.id
    requires Exchange.Step(Exchange.START, Exchange.Submit(a, clock)).orders == [a]
    requires AfterTwo(a, b, clock).orders == [a, b]
    ensures Exchange.FreshRun([Exchange.Submit(a, clock), Exchange.Submit(b, clock), Exchange.Submit(o, clock)])
  {
    RunOfThree(Exchange.Submit(a, clock), Exchange.Submit(b, clock), Exchange.Submit(o, clock));
  }

  lemma OneAsk(a: Order, clock: Clock)
    requires a.pair == BTC_USD && a.side == Sell && a.orderType == Limit && a.price.Some? && a.quantity > 0
    ensures Exchange.Step(Exchange.START, Exchange.Submit(a, clock)).orders == [a]
  {
    AskRests(Exchange.START, a, clock);
  }

  /** The clock need not even go backwards: two trades of one match at one reading are
      stored in order of their makers' ids, not in order of execution. */
  lemma TieOutOfOrder() returns (es: seq<Exchange.Event>)
    ensures Exchange.FreshRun(es)
    ensures var log := Exchange.Run(es).log;
      && |log| == 2 && log[0].timestamp == log[1].timestamp
      && log[0].symbol == log[1].symbol == BTC_USD.Code()
      && LexLess(KeyOf(log[1]), KeyOf(log[0]))
  {
    var still: Clock := n => 0;
    var a := Order(2, Sell, Limit, Some(100), 1, 0, BTC_USD);
    var b := Order(1, Sell, Limit, Some(100), 1, 0, BTC_USD);
    var o := Order(3, Buy, Market, None, 2, 0, BTC_USD);
    es := [Exchange.Submit(a, still), Exchange.Submit(b, still), Exchange.Submit(o, still)];
    OneAsk(a, still);
    TwoAsks(a, b, still);
    FreshThree(a, b, o, still);
    LogOfThree(a, b, o, still);
    var t, u := Take(TakerOf(o, still), 0, a, 1), Take(TakerOf(o, still), 1, b, 1);
    KeyOrder(BTC_USD.Code(), u, t);
  }

  lemma LogOfThree(a: Order, b: Order, o: Order, clock: Clock)
    requires o.pair == BTC_USD && o.side == Buy && o.orderType == Market
    requires o.quantity == a.quantity + b.quantity && b.quantity > 0
    requires var s2 := AfterTwo(a, b, clock);
      BTC_USD in s2.books && s2.books[BTC_USD].asks == [a, b] && s2.log == []
    ensures Exchange.Run([Exchange.Submit(a, clock), Exchange.Submit(b, clock), Exchange.Submit(o, clock)]).log ==
      [Take(TakerOf(o, clock), 0, a, a.quantity), Take(TakerOf(o, clock), 1, b, b.quantity)]
  {
    var e1, e2, e3 := Exchange.Submit(a, clock), Exchange.Submit(b, clock), Exchange.Submit(o, clock);
    RunOfThree(e1, e2, e3);
    TakesTwo(AfterTwo(a, b, clock), a, b, o, clock);
  }
}
