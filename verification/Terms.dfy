/** A match in the order's own words: what a market order, a limit order and a limit
    order without a price get, what their trades say, and what rests. Nothing here is
    stated through the way the engine works. */
module Terms {
  import opened Types
  import opened PriceTime
  import opened Levels
  import opened Filling
  import opened Matching
  import opened Priority

  /** The side an order meets. */
  function Facing(b: Book, o: Order): seq<Order> {
    match o.side
    case Buy => b.asks
    case Sell => b.bids
  }

  /** The side it would rest on. */
  function Joining(b: Book, o: Order): seq<Order> {
    match o.side
    case Buy => b.bids
    case Sell => b.asks
  }

  /** A buyer pays no more than `p`, a seller takes no less. */
  predicate AtOrBetter(side: Side, price: u64, p: u64) {
    match side
    case Buy => price <= p
    case Sell => price >= p
  }

  /** The quantity offered to an order of this side at `p` or better. */
  function OfferedAt(side: Side, f: seq<Order>, p: u64): nat {
    if f == [] then 0
    else (if AtOrBetter(side, f[0].Price(), p) then f[0].quantity else 0) + OfferedAt(side, f[1..], p)
  }

  function Smaller(a: nat, b: nat): nat {
    if a <= b then a else b
  }

  // ------------------------------------------------------------------- no limit

  lemma {:induction false} FillWithoutLimit(f: seq<Order>, tk: Taker, q: u64, k: nat)
    requires tk.limit.None?
    ensures FillFrom(f, tk, q, k).left == q - Smaller(q, Depth(f))
  {
    if f != [] && q > f[0].quantity {
      FillWithoutLimit(f[1..], tk, q - f[0].quantity, k + 1);
    }
  }

  /** A market order, and a limit order without a price, takes all it asked for or all
      there is, and no part of it rests. */
  lemma NoLimitTakesAll(b: Book, o: Order, clock: Clock)
    requires o.orderType == Market || o.price == None
    ensures var m := Match(b, o, clock);
      && Total(m.trades) == Smaller(o.quantity, Depth(Facing(b, o)))
      && m.left == o.quantity - Total(m.trades)
      && Joining(m.book, o) == Joining(b, o)
  {
    FillWithoutLimit(Facing(b, o), TakerOf(o, clock), o.quantity, 0);
    FillTotals(Facing(b, o), TakerOf(o, clock), o.quantity, 0);
  }

  /** The price of a market order is ignored. */
  lemma MarketIgnoresPrice(b: Book, o: Order, clock: Clock, p: Option<u64>)
    requires o.orderType == Market
    ensures Match(b, o.(price := p), clock).trades == Match(b, o, clock).trades
    ensures Match(b, o.(price := p), clock).book == Match(b, o, clock).book
  {
  }

  /** An order for nothing, if it gets this far, still makes one trade, for nothing, with
      the first order facing it, which keeps its place unless it offers nothing itself. */
  lemma NothingAskedFor(b: Book, o: Order, clock: Clock)
    requires o.orderType == Market && o.quantity == 0 && Facing(b, o) != []
    ensures var m, first := Match(b, o, clock), Facing(b, o)[0];
      && |m.trades| == 1 && m.trades[0].quantity == 0
      && m.trades[0].makerId == first.id && m.trades[0].takerId == o.id
      && Facing(m.book, o) == (if first.quantity == 0 then Facing(b, o)[1..] else Facing(b, o))
  {
  }

  // ------------------------------------------------------------------ with a limit

  lemma {:induction false} TradesWithin(side: Side, f: seq<Order>, tk: Taker, q: u64, k: nat, p: u64)
    requires tk.limit == Some(p) && tk.side == side.Opposite()
    ensures forall t :: t in FillFrom(f, tk, q, k).trades ==> AtOrBetter(side, t.price, p)
  {
    if f != [] && MayTake(tk, f[0]) && q > f[0].quantity {
      TradesWithin(side, f[1..], tk, q - f[0].quantity, k + 1, p);
    }
  }

  lemma {:induction false} OfferedIsEligible(side: Side, f: seq<Order>, tk: Taker, p: u64)
    requires tk.limit == Some(p) && tk.side == side.Opposite()
    ensures EligibleDepth(f, tk) == OfferedAt(side, f, p)
  {
    if f != [] {
      OfferedIsEligible(side, f[1..], tk, p);
    }
  }

  /** A limit order trades at its price or better only, takes all it asked for or all
      that is offered so, and if quantity is left no such offer is. */
  lemma LimitIsKept(b: Book, o: Order, clock: Clock, p: u64)
    requires ValidBook(b) && o.orderType == Limit && o.price == Some(p)
    ensures var m := Match(b, o, clock);
      && (forall t :: t in m.trades ==> AtOrBetter(o.side, t.price, p))
      && Total(m.trades) == Smaller(o.quantity, OfferedAt(o.side, Facing(b, o), p))
      && m.left == o.quantity - Total(m.trades)
      && (m.left > 0 ==> forall x :: x in Facing(m.book, o) ==> !AtOrBetter(o.side, x.Price(), p))
  {
    var f, tk := Facing(b, o), TakerOf(o, clock);
    TradesWithin(o.side, f, tk, o.quantity, 0, p);
    OfferedIsEligible(o.side, f, tk, p);
    FilledQuantity(tk.side, f, tk, o.quantity, 0);
    FillTotals(f, tk, o.quantity, 0);
    var r := FillFrom(f, tk, o.quantity, 0);
    if r.left > 0 {
      forall x | x in r.book ensures !AtOrBetter(o.side, x.Price(), p) {
        FillExhausts(tk.side, f, tk, o.quantity, 0, x);
      }
    }
  }

  // --------------------------------------------------------------------- what rests

  lemma {:induction false} FillIds(f: seq<Order>, tk: Taker, q: u64, k: nat, id: u128)
    ensures Has(FillFrom(f, tk, q, k).book, id) ==> Has(f, id)
  {
    if f != [] && MayTake(tk, f[0]) {
      assert f[0] in f && forall o :: o in f[1..] ==> o in f;
      if q > f[0].quantity {
        FillIds(f[1..], tk, q - f[0].quantity, k + 1, id);
      }
    }
  }

  /** After a match the book holds the order if and only if it is a limit order with a
      price and quantity is left; then it rests on its own side, with that quantity and
      otherwise as it was placed. Nothing else joins that side, and nothing leaves it. */
  lemma RestsExactly(b: Book, o: Order, clock: Clock)
    requires !b.Holds(o.id)
    ensures var m := Match(b, o, clock);
      && (m.book.Holds(o.id) <==> o.orderType == Limit && o.price.Some? && m.left > 0)
      && (forall x :: x in Joining(m.book, o) <==>
            x in Joining(b, o) || (m.book.Holds(o.id) && x == o.(quantity := m.left)))
      && m.left == o.quantity - Total(m.trades)
  {
    var f, tk := Facing(b, o), TakerOf(o, clock);
    var m := Match(b, o, clock);
    FillIds(f, tk, o.quantity, 0, o.id);
    FillTotals(f, tk, o.quantity, 0);
    var rest := o.(quantity := m.left);
    RestMembers(o.side, Joining(b, o), rest);
    if o.orderType == Limit && o.price.Some? && m.left > 0 {
      assert rest in Joining(m.book, o);
    }
  }

  // -------------------------------------------------------------- what a trade says

  lemma {:induction false} OneMaker(ts: seq<Trade>, i: nat)
    requires i < |ts| && forall j, k :: 0 <= j < k < |ts| ==> ts[j].makerId != ts[k].makerId
    ensures MakerQty(ts, ts[i].makerId) == ts[i].quantity
  {
    if i == 0 {
      forall t | t in ts[1..] ensures t.makerId != ts[0].makerId {
        var j :| 0 <= j < |ts[1..]| && ts[1..][j] == t;
        assert ts[j + 1] == t;
      }
      MakerQtyAbsent(ts[1..], ts[0].makerId);
    } else {
      assert forall j :: 0 <= j < |ts[1..]| ==> ts[1..][j] == ts[j + 1];
      OneMaker(ts[1..], i - 1);
    }
  }

  /** What the trade with the `i`-th order of the side says, field by field. `clock(i)` is
      the reading taken for it, and its quantity is what that order loses. */
  ghost predicate Says(t: Trade, maker: Order, taker: u128, now: u128, lost: int) {
    && t.makerId == maker.id && t.takerId == taker
    && maker.price == Some(t.price)
    && t.symbol == maker.pair.Code()
    && t.timestamp == now
    && 0 < t.quantity == lost
  }

  lemma MakersDiffer(side: Side, f: seq<Order>, tk: Taker, q: u64)
    requires ValidSide(side, f) && q > 0
    ensures var ts := FillFrom(f, tk, q, 0).trades;
      |ts| <= |f| && forall j, k :: 0 <= j < k < |ts| ==> ts[j].makerId != ts[k].makerId
  {
    var ts := FillFrom(f, tk, q, 0).trades;
    FillIsGreedy(f, tk, q, 0);
    forall j, k | 0 <= j < k < |ts| ensures ts[j].makerId != ts[k].makerId {
      assert Takes(tk, 0 + j, f[j], ts[j]) && Takes(tk, 0 + k, f[k], ts[k]);
      IndexedDistinct(f, j, k);
    }
  }

  lemma FillSays(side: Side, f: seq<Order>, tk: Taker, q: u64, i: nat)
    requires ValidSide(side, f) && q > 0
    requires i < |FillFrom(f, tk, q, 0).trades|
    ensures var r := FillFrom(f, tk, q, 0);
      i < |f| && Says(r.trades[i], f[i], tk.id, tk.clock(i), f[i].quantity - Qty(r.book, f[i].id))
  {
    var r := FillFrom(f, tk, q, 0);
    FillIsGreedy(f, tk, q, 0);
    MakersDiffer(side, f, tk, q);
    assert Takes(tk, 0 + i, f[i], r.trades[i]);
    assert f[i] in f;
    OneMaker(r.trades, i);
    FillMakers(f, tk, q, 0, f[i].id);
    QtyAt(f, i);
  }

  /** Every trade of a match: with the orders facing it in turn, at the maker's price, in
      its market, for what the maker loses, at the clock reading taken for it. */
  lemma TradesSay(b: Book, o: Order, clock: Clock, i: nat)
    requires ValidBook(b) && o.quantity > 0
    requires i < |Match(b, o, clock).trades|
    ensures var m, f := Match(b, o, clock), Facing(b, o);
      && i < |f|
      && m.trades[i].makerId == f[i].id && m.trades[i].takerId == o.id
      && f[i].price == Some(m.trades[i].price)
      && m.trades[i].symbol == f[i].pair.Code()
      && m.trades[i].timestamp == clock(i)
      && m.trades[i].quantity == f[i].quantity - Qty(Facing(m.book, o), f[i].id) > 0
  {
    FillSays(o.side.Opposite(), Facing(b, o), TakerOf(o, clock), o.quantity, i);
  }
}
