/** The order book of `orderbook.rs`: two ordered maps from price to a FIFO queue,
    changed in place, and what they mean as price-time ordered lists. */
module Engine {
  import opened Types
  import opened Ordered
  import opened PriceTime
  import opened Levels
  import opened Filling
  import opened Cancelling

  type PriceLevels = map<u64, seq<Order>>

  /** The iteration order over price levels that meets the best price of `side`
      first: descending for bids, ascending for asks. */
  function BestFirst(side: Side): (u64, u64) -> bool {
    (p: u64, q: u64) => Better(side, p, q)
  }

  function Queue(m: PriceLevels, p: u64): seq<Order> {
    if p in m then m[p] else []
  }

  function Concat(m: PriceLevels, prices: seq<u64>): seq<Order>
    requires forall p :: p in prices ==> p in m
  {
    if prices == [] then [] else m[prices[0]] + Concat(m, prices[1..])
  }

  function Prices(side: Side, m: PriceLevels): (r: seq<u64>)
    ensures Ascending(BestFirst(side), r)
    ensures forall p :: p in r <==> p in m
  {
    Enumerate(BestFirst(side), m.Keys)
  }

  /** One side of the book as a list in price-time priority. */
  function Flat(side: Side, m: PriceLevels): seq<Order> {
    Concat(m, Prices(side, m))
  }

  ghost predicate QueueAt(side: Side, p: u64, queue: seq<Order>) {
    forall o :: o in queue ==> o.side == side && o.price == Some(p)
  }

  /** No empty level; every order rests on its own side, at its own price. */
  ghost predicate WellFormed(side: Side, m: PriceLevels) {
    forall p :: p in m ==> m[p] != [] && QueueAt(side, p, m[p])
  }

  // ------------------------------------------------------ maps and their lists

  lemma ConcatFrame(m: PriceLevels, m': PriceLevels, prices: seq<u64>)
    requires forall p :: p in prices ==> p in m && p in m' && m[p] == m'[p]
    ensures Concat(m, prices) == Concat(m', prices)
  {
  }

  /** Changing the first level of what is left to visit changes only its front. */
  lemma ConcatHead(side: Side, m: PriceLevels, prices: seq<u64>, queue: seq<Order>)
    requires prices != [] && Ascending(BestFirst(side), prices)
    requires forall p :: p in prices ==> p in m
    ensures forall p :: p in prices ==> p in m[prices[0] := queue]
    ensures Concat(m[prices[0] := queue], prices) == queue + Concat(m, prices[1..])
  {
    AscendingHead(BestFirst(side), prices);
    ConcatFrame(m, m[prices[0] := queue], prices[1..]);
  }

  lemma {:induction false} ConcatMembers(m: PriceLevels, prices: seq<u64>, o: Order)
    requires forall p :: p in prices ==> p in m
    ensures o in Concat(m, prices) <==> exists p :: p in prices && o in m[p]
  {
    if prices != [] {
      ConcatMembers(m, prices[1..], o);
    }
  }

  lemma {:induction false} ConcatLevels(side: Side, m: PriceLevels, prices: seq<u64>, p: u64)
    requires Ascending(BestFirst(side), prices)
    requires forall x :: x in prices ==> x in m && QueueAt(side, x, m[x])
    ensures Level(Concat(m, prices), p) == if p in prices then m[p] else []
  {
    if prices != [] {
      var q := prices[0];
      LevelAppend(m[q], Concat(m, prices[1..]), p);
      LevelOfUniform(m[q], q, p);
      ConcatLevels(side, m, prices[1..], p);
      AscendingHead(BestFirst(side), prices);
    }
  }

  lemma {:induction false} UniformSorted(side: Side, p: u64, queue: seq<Order>, f: seq<Order>)
    requires QueueAt(side, p, queue) && Sorted(side, f)
    requires forall o :: o in f ==> !Better(side, o.Price(), p)
    ensures Sorted(side, queue + f)
  {
    if queue == [] {
      assert queue + f == f;
    } else {
      assert (queue + f)[1..] == queue[1..] + f;
      UniformSorted(side, p, queue[1..], f);
    }
  }

  lemma {:induction false} ConcatSorted(side: Side, m: PriceLevels, prices: seq<u64>)
    requires Ascending(BestFirst(side), prices)
    requires forall x :: x in prices ==> x in m && QueueAt(side, x, m[x])
    ensures Sorted(side, Concat(m, prices))
  {
    if prices != [] {
      ConcatSorted(side, m, prices[1..]);
      forall o | o in Concat(m, prices[1..]) ensures !Better(side, o.Price(), prices[0]) {
        ConcatMembers(m, prices[1..], o);
        var p :| p in prices[1..] && o in m[p];
        assert BestFirst(side)(prices[0], p);
      }
      UniformSorted(side, prices[0], m[prices[0]], Concat(m, prices[1..]));
    }
  }

  /** What a well-formed map says of its list. */
  lemma FlatProperties(side: Side, m: PriceLevels)
    requires WellFormed(side, m)
    ensures Sorted(side, Flat(side, m))
    ensures forall p: u64 :: Level(Flat(side, m), p) == Queue(m, p)
    ensures forall o :: o in Flat(side, m) ==> o.side == side && o.price.Some?
  {
    ConcatSorted(side, m, Prices(side, m));
    forall p: u64 ensures Level(Flat(side, m), p) == Queue(m, p) {
      ConcatLevels(side, m, Prices(side, m), p);
    }
    forall o | o in Flat(side, m) ensures o.side == side && o.price.Some? {
      ConcatMembers(m, Prices(side, m), o);
    }
  }

  /** A sorted list with the levels of a map is that map's list. */
  lemma FlatIs(side: Side, m: PriceLevels, f: seq<Order>)
    requires WellFormed(side, m) && Sorted(side, f)
    requires forall p: u64 :: Level(f, p) == Queue(m, p)
    ensures Flat(side, m) == f
  {
    FlatProperties(side, m);
    SortedByLevels(side, Flat(side, m), f);
  }

  /** Two books with the same lists are the same maps, level for level. */
  lemma FlatInjective(side: Side, m: PriceLevels, m': PriceLevels)
    requires WellFormed(side, m) && WellFormed(side, m')
    requires Flat(side, m) == Flat(side, m')
    ensures m == m'
  {
    FlatProperties(side, m);
    FlatProperties(side, m');
    forall p | p in m || p in m' ensures p in m && p in m' && m[p] == m'[p] {
      assert Queue(m, p) == Level(Flat(side, m), p) == Level(Flat(side, m'), p) == Queue(m', p);
    }
  }

  // ------------------------------------------------------------- matching loop

  ghost predicate Queues(side: Side, m: PriceLevels) {
    forall p :: p in m ==> QueueAt(side, p, m[p])
  }

  ghost predicate NoneEmpty(m: PriceLevels, prices: seq<u64>) {
    forall p :: p in prices ==> p in m && m[p] != []
  }

  /** Dropping the used-up levels leaves the list of the levels not used up. */
  lemma Prune(side: Side, m: PriceLevels, gone: seq<u64>, kept: seq<u64>)
    requires gone + kept == Prices(side, m)
    requires Queues(side, m) && NoneEmpty(m, kept)
    ensures var m' := m - (set p | p in gone);
      WellFormed(side, m') && Flat(side, m') == Concat(m, kept)
  {
    var m' := m - (set p | p in gone);
    AscendingSplit(BestFirst(side), gone, kept);
    assert forall p :: p in Prices(side, m) <==> p in gone || p in kept;
    assert forall p :: p in kept ==> !BestFirst(side)(p, p);
    AscendingIsUnique(BestFirst(side), kept, Prices(side, m'));
    ConcatFrame(m, m', kept);
  }

  /** Go on from a pass `r` over the orders in front to the orders behind: only if
      quantity is left. */
  ghost function Onward(r: Fill, rest: seq<Order>, tk: Taker, k: nat): Fill {
    if r.left == 0 then Fill(r.trades, r.book + rest, 0)
    else FillFrom(rest, tk, r.left, k + |r.trades|).After(r.trades)
  }

  lemma OnwardAfter(s: Fill, t: Trade, rest: seq<Order>, tk: Taker, k: nat, n: nat)
    requires n == k + 1
    ensures Onward(s.After([t]), rest, tk, k) == Onward(s, rest, tk, n).After([t])
  {
    if s.left > 0 {
      var made := k + |[t] + s.trades|;
      assert made == n + |s.trades|;
      AfterTwice(FillFrom(rest, tk, s.left, made), s.trades, [t]);
    }
  }

  /** Filling from a queue within the limit and whatever is behind it. */
  lemma {:induction false} FillAppend(queue: seq<Order>, rest: seq<Order>, tk: Taker, q: u64, k: nat)
    requires (queue != [] || q > 0) && forall o :: o in queue ==> MayTake(tk, o)
    ensures FillFrom(queue + rest, tk, q, k) == Onward(FillFrom(queue, tk, q, k), rest, tk, k)
    ensures FillFrom(queue, tk, q, k).left > 0 ==> FillFrom(queue, tk, q, k).book == []
  {
    if queue == [] {
      assert queue + rest == rest;
      var r := FillFrom(rest, tk, q, k);
      assert r.After([]) == r;
    } else {
      assert queue[0] in queue && (queue + rest)[1..] == queue[1..] + rest;
      if q <= queue[0].quantity {
        assert Cut(queue + rest, q) == Cut(queue, q) + rest;
      } else {
        var q', n := q - queue[0].quantity, k + 1;
        FillAppend(queue[1..], rest, tk, q', n);
        FillStep(queue, tk, q, k, q', n);
        FillStep(queue + rest, tk, q, k, q', n);
        OnwardAfter(FillFrom(queue[1..], tk, q', n), Take(tk, k, queue[0], queue[0].quantity), rest, tk, k, n);
      }
    }
  }

  lemma AfterTwice(r: Fill, a: seq<Trade>, b: seq<Trade>)
    ensures r.After(a).After(b) == r.After(b + a)
  {
    assert b + (a + r.trades) == (b + a) + r.trades;
  }

  /** What is still to do on `f`, added to the trades made, is the goal. */
  ghost predicate ToDo(goal: Fill, f: seq<Order>, tk: Taker, q: u64, k: nat, trades: seq<Trade>) {
    goal == FillFrom(f, tk, q, k + |trades|).After(trades)
  }

  /** One trade with the front order: `q'`, `f'` and `ts` are what it leaves and adds. */
  lemma FrontStep(goal: Fill, f: seq<Order>, tk: Taker, q: u64, k: nat, trades: seq<Trade>,
                  q': u64, f': seq<Order>, ts: seq<Trade>)
    requires ToDo(goal, f, tk, q, k, trades) && f != [] && MayTake(tk, f[0])
    requires q' == q - Min(q, f[0].quantity) && f' == Cut(f, Min(q, f[0].quantity))
    requires ts == trades + [Take(tk, k + |trades|, f[0], Min(q, f[0].quantity))]
    ensures q' == 0 ==> goal == Fill(ts, f', 0)
    ensures q' > 0 ==> ToDo(goal, f', tk, q', k, ts)
  {
    if q > f[0].quantity {
      AfterTwice(FillFrom(f', tk, q', k + |trades| + 1), [Take(tk, k + |trades|, f[0], f[0].quantity)], trades);
    }
  }

  /** The inner loop: fill one price level's queue, front first. */
  method FillQueue(incoming: Order, orders: seq<Order>, price: u64, made: nat, ghost tk: Taker, clock: Clock)
    returns (trades: seq<Trade>, taker: Order, queue: seq<Order>)
    requires tk.id == incoming.id && tk.clock == clock && Within(tk.side, tk.limit, price)
    requires forall o :: o in orders ==> o.price == Some(price)
    ensures Fill(trades, queue, taker.quantity) == FillFrom(orders, tk, incoming.quantity, made)
    ensures taker == incoming.(quantity := taker.quantity)
  {
    trades, taker, queue := [], incoming, orders;
    ghost var goal := FillFrom(orders, tk, incoming.quantity, made);
    while queue != []
      invariant forall o :: o in queue ==> o.price == Some(price)
      invariant taker == incoming.(quantity := taker.quantity)
      invariant ToDo(goal, queue, tk, taker.quantity, made, trades)
      decreases |queue|
    {
      var order := queue[0];
      assert order in queue;
      ghost var before := (queue, taker.quantity, trades);
      var tradeQty := Min(taker.quantity, order.quantity);
      trades := trades + [Trade(price, tradeQty, order.id, taker.id, clock(made + |trades|), order.pair.Code())];
      taker := taker.(quantity := taker.quantity - tradeQty);
      order := order.(quantity := order.quantity - tradeQty);
      queue := if order.quantity == 0 then queue[1..] else [order] + queue[1..];
      FrontStep(goal, before.0, tk, before.1, made, before.2, taker.quantity, queue, trades);
      if taker.quantity == 0 {
        break;
      }
    }
  }

  ghost predicate Pending(goal: Fill, m: PriceLevels, prices: seq<u64>, tk: Taker, q: u64, trades: seq<Trade>)
    requires forall p :: p in prices ==> p in m
  {
    goal == FillFrom(Concat(m, prices), tk, q, |trades|).After(trades)
  }

  ghost predicate Finished(goal: Fill, m: PriceLevels, prices: seq<u64>, q: u64, trades: seq<Trade>)
    requires forall p :: p in prices ==> p in m
  {
    goal == Fill(trades, Concat(m, prices), q)
  }

  /** One pass of the outer loop, after the queue of the first level was filled. */
  lemma LevelStep(side: Side, goal: Fill, m: PriceLevels, prices: seq<u64>, tk: Taker, q: u64,
                  trades: seq<Trade>, r: Fill)
    requires prices != [] && Ascending(BestFirst(side), prices)
    requires forall p :: p in prices ==> p in m
    requires m[prices[0]] != [] && QueueAt(side, prices[0], m[prices[0]])
    requires Within(tk.side, tk.limit, prices[0])
    requires Pending(goal, m, prices, tk, q, trades)
    requires r == FillFrom(m[prices[0]], tk, q, |trades|)
    ensures r.left == 0 ==> Finished(goal, m[prices[0] := r.book], prices, 0, trades + r.trades)
    ensures r.left > 0 ==> r.book == [] && Pending(goal, m[prices[0] := []], prices[1..], tk, r.left, trades + r.trades)
  {
    var queue, rest := m[prices[0]], Concat(m, prices[1..]);
    forall o | o in queue ensures MayTake(tk, o) {
      assert o.price == Some(prices[0]);
    }
    ConcatHead(side, m, prices, r.book);
    ConcatTail(side, m, prices);
    FillAppendGoal(goal, queue, rest, tk, q, trades, r, trades + r.trades, |trades + r.trades|);
  }

  lemma ConcatTail(side: Side, m: PriceLevels, prices: seq<u64>)
    requires prices != [] && Ascending(BestFirst(side), prices)
    requires forall p :: p in prices ==> p in m
    ensures Concat(m[prices[0] := []], prices[1..]) == Concat(m, prices[1..])
  {
    AscendingHead(BestFirst(side), prices);
    ConcatFrame(m, m[prices[0] := []], prices[1..]);
  }

  lemma FillAppendGoal(goal: Fill, queue: seq<Order>, rest: seq<Order>, tk: Taker, q: u64, trades: seq<Trade>, r: Fill,
                       all: seq<Trade>, made: nat)
    requires queue != [] && forall o :: o in queue ==> MayTake(tk, o)
    requires goal == FillFrom(queue + rest, tk, q, |trades|).After(trades) && r == FillFrom(queue, tk, q, |trades|)
    requires all == trades + r.trades && made == |all|
    ensures r.left == 0 ==> goal == Fill(all, r.book + rest, 0)
    ensures r.left > 0 ==> r.book == [] && goal == FillFrom(rest, tk, r.left, made).After(all)
  {
    FillAppend(queue, rest, tk, q, |trades|);
    if r.left > 0 {
      assert made == |trades| + |r.trades|;
      AfterTwice(FillFrom(rest, tk, r.left, made), r.trades, trades);
    }
  }

  lemma {:induction false} FillQueueAt(side: Side, p: u64, queue: seq<Order>, tk: Taker, q: u64, k: nat)
    requires QueueAt(side, p, queue)
    ensures QueueAt(side, p, FillFrom(queue, tk, q, k).book)
  {
    if queue != [] {
      assert queue[0] in queue && forall o :: o in queue[1..] ==> o in queue;
      if MayTake(tk, queue[0]) && q > queue[0].quantity {
        FillQueueAt(side, p, queue[1..], tk, q - queue[0].quantity, k + 1);
      }
    }
  }

  method RemoveLevels(bookSide: PriceLevels, prices: seq<u64>) returns (book: PriceLevels)
    ensures book == bookSide - (set p | p in prices)
  {
    book := bookSide;
    for j := 0 to |prices|
      invariant book == bookSide - (set p | p in prices[..j])
    {
      book := book - {prices[j]};
      assert prices[..j + 1] == prices[..j] + [prices[j]];
    }
    assert prices[..|prices|] == prices;
  }

  lemma ShiftHead<T>(a: seq<T>, b: seq<T>)
    requires b != []
    ensures (a + [b[0]]) + b[1..] == a + b
  {
  }

  /** Replacing the queue of the first level keeps what the walk needs. */
  lemma NextLevel(side: Side, m: PriceLevels, prices: seq<u64>, queue: seq<Order>)
    requires prices != [] && Ascending(BestFirst(side), prices)
    requires Queues(side, m) && NoneEmpty(m, prices) && QueueAt(side, prices[0], queue)
    ensures m[prices[0] := queue].Keys == m.Keys
    ensures Queues(side, m[prices[0] := queue]) && NoneEmpty(m[prices[0] := queue], prices[1..])
    ensures queue != [] ==> NoneEmpty(m[prices[0] := queue], prices)
  {
    AscendingHead(BestFirst(side), prices);
  }

  /** The outer loop, over the levels listed in `iter`: stop at the first price
      beyond the limit, or once the taker is filled. `levels` collects the levels
      used up; `rest` is where the walk ended. */
  method WalkLevels(incoming: Order, bookSide: PriceLevels, prices: seq<u64>, limit: Option<u64>, clock: Clock,
                    ghost tk: Taker, ghost goal: Fill)
    returns (trades: seq<Trade>, taker: Order, book: PriceLevels, levels: seq<u64>, ghost kept: seq<u64>)
    requires tk == Taker(incoming.id, incoming.side.Opposite(), limit, clock)
    requires Ascending(BestFirst(tk.side), prices)
    requires Queues(tk.side, bookSide) && NoneEmpty(bookSide, prices)
    requires Pending(goal, bookSide, prices, tk, incoming.quantity, [])
    ensures taker == incoming.(quantity := taker.quantity)
    ensures book.Keys == bookSide.Keys && levels + kept == prices
    ensures Queues(tk.side, book) && NoneEmpty(book, kept)
    ensures Finished(goal, book, kept, taker.quantity, trades)
  {
    taker, book, trades, levels := incoming, bookSide, [], [];
    var iter := prices;
    while iter != []
      invariant levels + iter == prices && book.Keys == bookSide.Keys
      invariant Ascending(BestFirst(tk.side), iter)
      invariant Queues(tk.side, book) && NoneEmpty(book, iter)
      invariant taker == incoming.(quantity := taker.quantity)
      invariant Pending(goal, book, iter, tk, taker.quantity, trades)
      decreases |iter|
    {
      var price := iter[0];
      if limit.Some? {
        match taker.side
        case Buy => if price > limit.value { break; }
        case Sell => if price < limit.value { break; }
      }
      ghost var r := FillFrom(book[price], tk, taker.quantity, |trades|);
      FillQueueAt(tk.side, price, book[price], tk, taker.quantity, |trades|);
      LevelStep(tk.side, goal, book, iter, tk, taker.quantity, trades, r);
      NextLevel(tk.side, book, iter, r.book);
      ShiftHead(levels, iter);
      var more, left, queue := FillQueue(taker, book[price], price, |trades|, tk, clock);
      trades, taker, book := trades + more, left, book[price := queue];
      if queue == [] {
        levels := levels + [price];
      }
      if taker.quantity == 0 {
        kept := if queue == [] then iter[1..] else iter;
        return;
      }
      iter := iter[1..];
    }
    kept := iter;
  }

  /** The price levels iterate best price first: descending (`reversed`) for a
      sell, ascending for a buy. */
  method MatchIncomingSide(incoming: Order, bookSide: PriceLevels, reversed: bool, priceLimit: Option<u64>,
                           clock: Clock)
    returns (trades: seq<Trade>, taker: Order, book: PriceLevels)
    requires reversed <==> incoming.side.Sell?
    requires WellFormed(incoming.side.Opposite(), bookSide)
    ensures var side := incoming.side.Opposite();
      var r := FillFrom(Flat(side, bookSide), Taker(incoming.id, side, priceLimit, clock), incoming.quantity, 0);
      && trades == r.trades
      && taker == incoming.(quantity := r.left)
      && WellFormed(side, book) && Flat(side, book) == r.book
  {
    var side := if reversed then Buy else Sell;
    ghost var tk := Taker(incoming.id, side, priceLimit, clock);
    ghost var goal := FillFrom(Flat(side, bookSide), tk, incoming.quantity, 0);
    var levelsToRemove;
    ghost var kept;
    trades, taker, book, levelsToRemove, kept :=
      WalkLevels(incoming, bookSide, Prices(side, bookSide), priceLimit, clock, tk, goal);
    Prune(side, book, levelsToRemove, kept);
    book := RemoveLevels(book, levelsToRemove);
  }

  // ------------------------------------------------------------------- cancel

  lemma CutLater(queue: seq<Order>, i: nat)
    requires i + 1 < |queue|
    ensures queue[..i + 1] + queue[i + 2..] == [queue[0]] + (queue[1..][..i] + queue[1..][i + 1..])
  {
  }

  function Position(queue: seq<Order>, id: u128): (r: Option<nat>)
    ensures r.Some? ==> r.value < |queue| && queue[r.value].id == id
    ensures r.Some? ==> queue[..r.value] + queue[r.value + 1..] == DropFirst(queue, id)
    ensures r.None? <==> !Has(queue, id)
  {
    if queue == [] then None
    else if queue[0].id == id then
      assert queue[0] in queue;
      Some(0)
    else
      assert forall o :: o in queue <==> o == queue[0] || o in queue[1..];
      match Position(queue[1..], id)
      case None => None
      case Some(i) =>
        CutLater(queue, i);
        Some(i + 1)
  }

  lemma {:induction false} DropFirstMembers(queue: seq<Order>, id: u128)
    ensures forall o :: o in DropFirst(queue, id) ==> o in queue
  {
    if queue != [] {
      DropFirstMembers(queue[1..], id);
    }
  }

  /** Taking the first order of an id out of one level, and the level out of the map if
      that empties it, takes that order out of the list. */
  lemma DropAtLevel(side: Side, m: PriceLevels, p: u64, id: u128, m': PriceLevels)
    requires WellFormed(side, m) && p in m
    requires m' == if DropFirst(m[p], id) == [] then m - {p} else m[p := DropFirst(m[p], id)]
    ensures WellFormed(side, m') && Flat(side, m') == DropAt(Flat(side, m), p, id)
  {
    var f := Flat(side, m);
    FlatProperties(side, m);
    DropFirstMembers(m[p], id);
    SortedDropAt(side, f, p, id);
    forall q: u64 ensures Level(DropAt(f, p, id), q) == Queue(m', q) {
      LevelDropAt(f, p, id, q);
    }
    FlatIs(side, m', DropAt(f, p, id));
  }

  /** The level in which the search by ascending price stops holds the order to cancel. */
  lemma LowestLevel(side: Side, m: PriceLevels, p: u64, id: u128)
    requires WellFormed(side, m) && p in m && Has(m[p], id)
    requires forall q :: q in m && Has(m[q], id) ==> p <= q
    ensures Has(Flat(side, m), id)
    ensures CancelOne(Flat(side, m), id) == DropAt(Flat(side, m), p, id)
  {
    var f := Flat(side, m);
    var o :| o in m[p] && o.id == id;
    InFlat(side, m, o);
    forall x | x in f && x.id == id ensures p <= x.Price() {
      InFlat(side, m, x);
      var q :| q in m && x in m[q];
      assert Has(m[q], id);
    }
    CancelledAt(f, p, o);
  }

  lemma NotOnSide(side: Side, m: PriceLevels, id: u128)
    requires forall p :: p in m ==> !Has(m[p], id)
    ensures !Has(Flat(side, m), id) && CancelOne(Flat(side, m), id) == Flat(side, m)
  {
    forall o | o in Flat(side, m) ensures o.id != id {
      InFlat(side, m, o);
    }
    LowestIs(Flat(side, m), id);
  }

  /** Search one side, lowest price first, and take out the first order of this id. */
  method CancelOnSide(ghost side: Side, bookSide: PriceLevels, id: u128)
    returns (found: bool, book: PriceLevels)
    requires WellFormed(side, bookSide)
    ensures WellFormed(side, book)
    ensures Flat(side, book) == CancelOne(Flat(side, bookSide), id)
    ensures found <==> Has(Flat(side, bookSide), id)
  {
    found, book := false, bookSide;
    var iter := Prices(Sell, bookSide);
    while iter != []
      invariant !found && book == bookSide && Ascending(BestFirst(Sell), iter)
      invariant forall p :: p in iter ==> p in bookSide
      invariant forall p :: p in bookSide && p !in iter ==> !Has(bookSide[p], id)
      decreases |iter|
    {
      var price := iter[0];
      var pos := Position(bookSide[price], id);
      assert forall p :: p in iter <==> p == price || p in iter[1..];
      if pos.Some? {
        var queue := bookSide[price][..pos.value] + bookSide[price][pos.value + 1..];
        found, book := true, bookSide[price := queue];
        if queue == [] {
          book := book - {price};
          assert book == bookSide - {price};
        }
        assert forall p :: p in iter[1..] ==> BestFirst(Sell)(price, p);
        DropAtLevel(side, bookSide, price, id, book);
        LowestLevel(side, bookSide, price, id);
        return;
      }
      iter := iter[1..];
    }
    NotOnSide(side, bookSide, id);
  }

  lemma InFlat(side: Side, m: PriceLevels, o: Order)
    ensures o in Flat(side, m) <==> exists p :: p in m && o in m[p]
  {
    ConcatMembers(m, Prices(side, m), o);
  }

  // --------------------------------------------------------------------- adding

  lemma QueueAdded(side: Side, m: PriceLevels, o: Order, p: u64)
    requires WellFormed(side, m) && o.side == side && o.price == Some(p)
    ensures WellFormed(side, m[p := Queue(m, p) + [o]])
  {
    forall x | x in Queue(m, p) + [o] ensures x.side == side && x.price == Some(p) {
      assert x == o || x in Queue(m, p);
    }
  }

  lemma AddAt(side: Side, m: PriceLevels, o: Order, p: u64)
    requires WellFormed(side, m) && o.side == side && o.price == Some(p)
    ensures var m' := m[p := Queue(m, p) + [o]];
      WellFormed(side, m') && Flat(side, m') == Rest(side, Flat(side, m), o)
  {
    var m' := m[p := Queue(m, p) + [o]];
    var f := Flat(side, m);
    QueueAdded(side, m, o, p);
    FlatProperties(side, m);
    SortedRest(side, f, o);
    forall q: u64 ensures Level(Rest(side, f, o), q) == Queue(m', q) {
      LevelRest(side, f, o, q);
    }
    FlatIs(side, m', Rest(side, f, o));
  }

  // ------------------------------------------------------------------ the class

  /** A market's active orders, one map from price to FIFO queue per side. */
  class OrderBook {
    var bids: PriceLevels
    var asks: PriceLevels

    /** The book as two lists in price-time priority. */
    ghost function View(): Book
      reads this
    {
      Book(Flat(Buy, bids), Flat(Sell, asks))
    }

    ghost predicate Valid()
      reads this
    {
      WellFormed(Buy, bids) && WellFormed(Sell, asks)
    }

    constructor ()
      ensures Valid() && View() == EMPTY_BOOK
    {
      bids, asks := map[], map[];
    }

    /** Rests an order with a price at the back of its level; ignores any other. */
    method AddOrder(order: Order)
      requires Valid()
      modifies this
      ensures Valid()
      ensures View() == if order.price.None? then old(View())
        else old(View()).With(order.side, Rest(order.side, old(View()).On(order.side), order))
    {
      if order.price.Some? {
        var price := order.price.value;
        match order.side {
          case Buy =>
            AddAt(Buy, bids, order, price);
            bids := bids[price := Queue(bids, price) + [order]];
          case Sell =>
            AddAt(Sell, asks, order, price);
            asks := asks[price := Queue(asks, price) + [order]];
        }
      }
    }

    /** Matches an incoming order, then rests what is left of a limit order. */
    method MatchOrder(order: Order, clock: Clock) returns (trades: seq<Trade>)
      requires Valid()
      modifies this
      ensures Valid()
      ensures trades == Match(old(View()), order, clock).trades
      ensures View() == Match(old(View()), order, clock).book
    {
      var incoming := order;
      match (incoming.side, incoming.orderType) {
        case (Buy, Market) =>
          trades, incoming, asks := MatchIncomingSide(incoming, asks, false, None, clock);
        case (Buy, Limit) =>
          trades, incoming, asks := MatchIncomingSide(incoming, asks, false, incoming.price, clock);
        case (Sell, Market) =>
          trades, incoming, bids := MatchIncomingSide(incoming, bids, true, None, clock);
        case (Sell, Limit) =>
          trades, incoming, bids := MatchIncomingSide(incoming, bids, true, incoming.price, clock);
      }
      if incoming.orderType == Limit && incoming.quantity > 0 {
        AddOrder(incoming);
      }
    }

    /** Takes the first order with this id out of the book, bids first. */
    method CancelOrder(id: u128) returns (found: bool)
      requires Valid()
      modifies this
      ensures Valid()
      ensures found <==> old(View()).Holds(id)
      ensures View() == CancelFirst(old(View()), id)
    {
      LowestIs(View().bids, id);
      found, bids := CancelOnSide(Buy, bids, id);
      if found {
        return;
      }
      found, asks := CancelOnSide(Sell, asks, id);
    }
  }
}
