/** The aggregated book that is sent to clients (`BookSnapshot`). */
module Snapshot {
  import opened Types
  import opened Ordered
  import opened PriceTime
  import opened Levels
  import opened Filling
  import opened Engine

  type Row = (u64, u64)

  datatype BookSnapshot = BookSnapshot(pair: Pair, bids: seq<Row>, asks: seq<Row>) {
    function On(side: Side): seq<Row> {
      if side.Buy? then bids else asks
    }
  }

  /** The sum of a queue's quantities in 64-bit arithmetic, which wraps around. */
  function SumFrom(acc: u64, queue: seq<Order>): u64
    decreases queue
  {
    if queue == [] then acc else SumFrom((acc + queue[0].quantity) % U64_MODULUS, queue[1..])
  }

  function Rows(m: PriceLevels, prices: seq<u64>): seq<Row>
    requires forall p :: p in prices ==> p in m
  {
    if prices == [] then [] else [(prices[0], SumFrom(0, m[prices[0]]))] + Rows(m, prices[1..])
  }

  /** Bids by descending price, asks by ascending price. */
  function ForPair(pair: Pair, bids: PriceLevels, asks: PriceLevels): BookSnapshot {
    BookSnapshot(pair, Rows(bids, Prices(Buy, bids)), Rows(asks, Prices(Sell, asks)))
  }

  // ------------------------------------------------------------------ one side

  lemma {:induction false} SumWraps(acc: u64, queue: seq<Order>)
    ensures SumFrom(acc, queue) == (acc + Depth(queue)) % U64_MODULUS
    decreases queue
  {
    if queue != [] {
      var next: u64 := (acc + queue[0].quantity) % U64_MODULUS;
      SumWraps(next, queue[1..]);
      ModAdd(acc + queue[0].quantity, Depth(queue[1..]));
    }
  }

  lemma ModAdd(a: nat, b: nat)
    ensures (a % U64_MODULUS + b) % U64_MODULUS == (a + b) % U64_MODULUS
  {
    var r, q := a % U64_MODULUS, a / U64_MODULUS;
    assert a == q * U64_MODULUS + r;
    assert (a + b) == q * U64_MODULUS + (r + b);
    ModMultiple(r + b, q);
  }

  lemma {:induction false} ModMultiple(x: nat, q: nat)
    ensures (q * U64_MODULUS + x) % U64_MODULUS == x % U64_MODULUS
    decreases q
  {
    if q > 0 {
      ModMultiple(x, q - 1);
    }
  }

  /** A level total is exact if and only if it fits in 64 bits. */
  lemma SumExact(queue: seq<Order>)
    ensures SumFrom(0, queue) == Depth(queue) <==> Depth(queue) < U64_MODULUS
  {
    SumWraps(0, queue);
  }

  lemma {:induction false} RowsAre(m: PriceLevels, prices: seq<u64>, i: nat)
    requires forall p :: p in prices ==> p in m
    requires i < |prices|
    ensures |Rows(m, prices)| == |prices| && Rows(m, prices)[i] == (prices[i], SumFrom(0, m[prices[i]]))
  {
    if i > 0 {
      RowsAre(m, prices[1..], i - 1);
    } else if |prices| > 1 {
      RowsAre(m, prices[1..], 0);
    }
  }

  lemma {:induction false} DepthPositive(queue: seq<Order>)
    ensures Depth(queue) > 0 <==> exists o :: o in queue && o.quantity > 0
  {
    if queue != [] {
      DepthPositive(queue[1..]);
      assert forall o :: o in queue <==> o == queue[0] || o in queue[1..];
    }
  }

  /** A row that tells the exact total of its level, which is zero only if all that
      rests there has quantity zero. */
  ghost predicate Exact(m: PriceLevels, row: Row) {
    && row.0 in m && row.1 == Depth(m[row.0])
    && (row.1 > 0 <==> exists o :: o in m[row.0] && o.quantity > 0)
  }

  /** One row per level, best price first, and exact whenever the level's total fits in
      64 bits. */
  lemma RowsOfSide(side: Side, m: PriceLevels, i: nat, j: nat)
    requires WellFormed(side, m) && i <= j < |Rows(m, Prices(side, m))|
    ensures var rows := Rows(m, Prices(side, m));
      && |rows| == |m.Keys|
      && (i < j ==> Better(side, rows[i].0, rows[j].0))
      && rows[i].0 in m && rows[j].0 in m
      && (Depth(m[rows[i].0]) < U64_MODULUS ==> Exact(m, rows[i]))
      && (Depth(m[rows[j].0]) < U64_MODULUS ==> Exact(m, rows[j]))
  {
    var prices := Prices(side, m);
    RowsLength(m, prices);
    RowsAre(m, prices, i);
    RowsAre(m, prices, j);
    if i < j {
      AscendingAt(BestFirst(side), prices, i, j);
    }
    SumExact(m[prices[i]]);
    SumExact(m[prices[j]]);
    DepthPositive(m[prices[i]]);
    DepthPositive(m[prices[j]]);
    AscendingCount(side, prices, m.Keys);
  }

  lemma {:induction false} RowsLength(m: PriceLevels, prices: seq<u64>)
    requires forall p :: p in prices ==> p in m
    ensures |Rows(m, prices)| == |prices|
  {
    if prices != [] {
      RowsLength(m, prices[1..]);
    }
  }

  lemma {:induction false} AscendingCount(side: Side, prices: seq<u64>, keys: set<u64>)
    requires Ascending(BestFirst(side), prices) && forall p :: p in prices <==> p in keys
    ensures |prices| == |keys|
  {
    if prices == [] {
      assert keys == {};
    } else {
      AscendingHead(BestFirst(side), prices);
      AscendingCount(side, prices[1..], keys - {prices[0]});
    }
  }

  lemma {:induction false} RowsListed(m: PriceLevels, prices: seq<u64>, p: u64)
    requires forall x :: x in prices ==> x in m
    ensures p in prices <==> exists i :: 0 <= i < |Rows(m, prices)| && Rows(m, prices)[i].0 == p
  {
    RowsLength(m, prices);
    forall i | 0 <= i < |prices| ensures Rows(m, prices)[i].0 == prices[i] {
      RowsAre(m, prices, i);
    }
    if p in prices {
      var i :| 0 <= i < |prices| && prices[i] == p;
      assert Rows(m, prices)[i].0 == p;
    }
  }

  /** The total of a row, where it fits in 64 bits. */
  ghost predicate TotalShown(m: PriceLevels, row: Row) {
    row.0 in m && (Depth(m[row.0]) < 0x1_0000_0000_0000_0000 ==> row.1 == Depth(m[row.0]))
  }

  /** The snapshot of a market: its bids by strictly descending price, its asks by strictly
      ascending price, one row for each price level and no other, and every total exact
      where it fits in 64 bits. */
  lemma SnapshotListed(pair: Pair, bids: PriceLevels, asks: PriceLevels)
    requires WellFormed(Buy, bids) && WellFormed(Sell, asks)
    ensures var s := ForPair(pair, bids, asks);
      && s.pair == pair
      && (forall i, j :: 0 <= i < j < |s.bids| ==> s.bids[i].0 > s.bids[j].0)
      && (forall i, j :: 0 <= i < j < |s.asks| ==> s.asks[i].0 < s.asks[j].0)
      && (forall p :: p in bids <==> exists i :: 0 <= i < |s.bids| && s.bids[i].0 == p)
      && (forall p :: p in asks <==> exists i :: 0 <= i < |s.asks| && s.asks[i].0 == p)
      && (forall i :: 0 <= i < |s.bids| ==> TotalShown(bids, s.bids[i]))
      && (forall i :: 0 <= i < |s.asks| ==> TotalShown(asks, s.asks[i]))
  {
    SideListed(Buy, bids);
    SideListed(Sell, asks);
  }

  lemma SideListed(side: Side, m: PriceLevels)
    requires WellFormed(side, m)
    ensures var rows := Rows(m, Prices(side, m));
      && (forall i, j :: 0 <= i < j < |rows| ==> Better(side, rows[i].0, rows[j].0))
      && (forall p :: p in m <==> exists i :: 0 <= i < |rows| && rows[i].0 == p)
      && (forall i :: 0 <= i < |rows| ==> TotalShown(m, rows[i]))
  {
    var rows := Rows(m, Prices(side, m));
    forall i, j | 0 <= i < j < |rows| ensures Better(side, rows[i].0, rows[j].0) {
      RowsOfSide(side, m, i, j);
    }
    forall p: u64 ensures p in m <==> exists i :: 0 <= i < |rows| && rows[i].0 == p {
      RowsListed(m, Prices(side, m), p);
    }
    forall i | 0 <= i < |rows| ensures TotalShown(m, rows[i]) {
      RowsOfSide(side, m, i, i);
    }
  }

  // -------------------------------------------------------- quotes and matching

  /** The total shown at a price: nothing is shown where there is no level. */
  function Quoted(rows: seq<Row>, p: u64): nat {
    if rows == [] then 0 else if rows[0].0 == p then rows[0].1 else Quoted(rows[1..], p)
  }

  lemma {:induction false} QuotedRows(m: PriceLevels, prices: seq<u64>, p: u64)
    requires forall x :: x in prices ==> x in m
    ensures Quoted(Rows(m, prices), p) == if p in prices then SumFrom(0, m[p]) else 0
  {
    if prices != [] {
      QuotedRows(m, prices[1..], p);
      assert Rows(m, prices)[1..] == Rows(m, prices[1..]);
    }
  }

  /** A quote is the depth of its level. */
  lemma QuotedIsDepth(side: Side, m: PriceLevels, p: u64)
    requires WellFormed(side, m) && Depth(Queue(m, p)) < U64_MODULUS
    ensures Quoted(Rows(m, Prices(side, m)), p) == Depth(Level(Flat(side, m), p))
  {
    QuotedRows(m, Prices(side, m), p);
    FlatProperties(side, m);
    SumExact(Queue(m, p));
  }

  function TradedAt(ts: seq<Trade>, p: u64): nat {
    if ts == [] then 0
    else if ts[0].price == p then ts[0].quantity + TradedAt(ts[1..], p)
    else TradedAt(ts[1..], p)
  }

  /** What a level loses is what was traded at its price. */
  lemma {:induction false} FillAtPrice(f: seq<Order>, tk: Taker, q: u64, k: nat, p: u64)
    ensures Depth(Level(FillFrom(f, tk, q, k).book, p)) + TradedAt(FillFrom(f, tk, q, k).trades, p) ==
      Depth(Level(f, p))
  {
    if f == [] || !MayTake(tk, f[0]) {
      assert FillFrom(f, tk, q, k) == Fill([], f, q);
    } else {
      assert ([f[0]] + Level(f[1..], p))[1..] == Level(f[1..], p);
      if q <= f[0].quantity {
        var t, h := Take(tk, k, f[0], q), f[0].(quantity := f[0].quantity - q);
        assert [t][1..] == [] && ([h] + f[1..])[1..] == f[1..];
        assert ([h] + Level(f[1..], p))[1..] == Level(f[1..], p);
      } else {
        var t, q', n := Take(tk, k, f[0], f[0].quantity), q - f[0].quantity, k + 1;
        var s := FillFrom(f[1..], tk, q', n);
        FillAtPrice(f[1..], tk, q', n, p);
        FillStep(f, tk, q, k, q', n);
        assert ([t] + s.trades)[1..] == s.trades;
      }
    }
  }

  lemma {:induction false} DepthAppend(f: seq<Order>, g: seq<Order>)
    ensures Depth(f + g) == Depth(f) + Depth(g)
  {
    if f == [] {
      assert f + g == g;
    } else {
      assert (f + g)[1..] == f[1..] + g;
      DepthAppend(f[1..], g);
    }
  }

  /** The depth of any level across a match. */
  lemma MatchAtPrice(b: Book, o: Order, clock: Clock, p: u64)
    requires ValidBook(b)
    ensures var m := Match(b, o, clock);
      && Depth(Level(m.book.On(o.side.Opposite()), p)) + TradedAt(m.trades, p) ==
         Depth(Level(b.On(o.side.Opposite()), p))
      && Depth(Level(m.book.On(o.side), p)) ==
         Depth(Level(b.On(o.side), p)) + (if Rests(o, m.left) && p == o.Price() then m.left else 0)
  {
    var hit := o.side.Opposite();
    var r := FillFrom(b.On(hit), TakerOf(o, clock), o.quantity, 0);
    FillAtPrice(b.On(hit), TakerOf(o, clock), o.quantity, 0, p);
    if Rests(o, r.left) {
      var rest := o.(quantity := r.left);
      LevelRest(o.side, b.On(o.side), rest, p);
      assert Depth([rest]) == r.left by { assert [rest][1..] == []; }
      var before := Level(b.On(o.side), p);
      DepthAppend(before, [rest]);
      assert before + [] == before;
      assert rest.Price() == o.Price();
    }
  }

  ghost predicate Fits(m: PriceLevels) {
    forall p: u64 :: Depth(Queue(m, p)) < U64_MODULUS
  }

  /** Two snapshots around a match, on the maps themselves: at each price of the
      other side the quote falls by what was traded there, and on the order's own
      side only the quote at its price grows, by the remainder that rests. */
  lemma SnapshotAcrossMatch(pair: Pair, bids: PriceLevels, asks: PriceLevels, o: Order, clock: Clock,
                            bids': PriceLevels, asks': PriceLevels, p: u64)
    requires WellFormed(Buy, bids) && WellFormed(Sell, asks) && Fits(bids) && Fits(asks)
    requires WellFormed(Buy, bids') && WellFormed(Sell, asks') && Fits(bids') && Fits(asks')
    requires var b := Book(Flat(Buy, bids), Flat(Sell, asks));
      ValidBook(b) && Match(b, o, clock).book == Book(Flat(Buy, bids'), Flat(Sell, asks'))
    ensures var m := Match(Book(Flat(Buy, bids), Flat(Sell, asks)), o, clock);
      var before, after := ForPair(pair, bids, asks), ForPair(pair, bids', asks');
      && Quoted(after.On(o.side.Opposite()), p) + TradedAt(m.trades, p) == Quoted(before.On(o.side.Opposite()), p)
      && Quoted(after.On(o.side), p) ==
         Quoted(before.On(o.side), p) + (if Rests(o, m.left) && p == o.Price() then m.left else 0)
  {
    MatchAtPrice(Book(Flat(Buy, bids), Flat(Sell, asks)), o, clock, p);
    QuotedIsDepth(Buy, bids, p);
    QuotedIsDepth(Sell, asks, p);
    QuotedIsDepth(Buy, bids', p);
    QuotedIsDepth(Sell, asks', p);
  }
}
