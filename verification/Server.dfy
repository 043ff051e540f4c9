/** The request handlers of `api.rs` on the shared state of `state.rs`, run without
    interruption: what one call does, and that it is one run of the protocol. */
module Server {
  import opened Types
  import opened PriceTime
  import opened TradeStore
  import opened Engine
  import opened Cancelling
  import opened Filling
  import opened Matching
  import opened Priority
  import Levels
  import Terms
  import Exchange
  import opened Protocol
  import opened Accounts
  import opened Interleavings

  /** The shared state as values. */
  datatype Shared = Shared(books: map<Pair, Book>, log: seq<Trade>, db: Db, feed: seq<Trade>, notes: seq<Pair>)

  datatype Response = Ack(id: u128, trades: seq<Trade>) | BadRequest | OrderNotFound | StoreError

  /** What `POST /orders` does when nothing else runs. `fails` is the number of inserts
      that succeed before one fails, if one does. */
  function Created(g: Shared, ask: NewOrder, id: u128, time: u128, clock: Clock, fails: Option<nat>)
    : (Shared, Response)
  {
    if ask.quantity == 0 || ask.pair !in g.books then (g, BadRequest) else
    var m := Match(g.books[ask.pair], ask.Placed(id, time), clock);
    Recorded(g.(books := g.books[ask.pair := m.book]), ask.pair, id, m.trades, fails)
  }

  /** What follows the match: the trades are logged and stored, and if that succeeds
      broadcast, and the market is announced. */
  function Recorded(g: Shared, p: Pair, id: u128, trades: seq<Trade>, fails: Option<nat>): (Shared, Response) {
    var logged := g.(log := g.log + trades, db := InsertAll(g.db, Inserted(trades, fails)));
    if Inserted(trades, fails) != trades then (logged, StoreError)
    else (logged.(feed := g.feed + trades, notes := g.notes + [p]), Ack(id, trades))
  }

  /** What `DELETE /orders/{pair}/{id}` does when nothing else runs. */
  function Deleted(g: Shared, p: Pair, id: u128): (Shared, Response) {
    if p !in g.books then (g, BadRequest)
    else if g.books[p].Holds(id) then
      (g.(books := g.books[p := CancelFirst(g.books[p], id)], notes := g.notes + [p]), Ack(id, []))
    else (g, OrderNotFound)
  }

  /** The trades inserted before a failure, or all of them. */
  function Inserted(trades: seq<Trade>, fails: Option<nat>): seq<Trade> {
    if fails.Some? && fails.value < |trades| then trades[..fails.value] else trades
  }

  /** No two markets share a book. */
  ghost predicate Apart(books: map<Pair, OrderBook>) {
    forall p, q :: p in books && q in books && p != q ==> books[p] != books[q]
  }

  ghost predicate Sound(books: map<Pair, OrderBook>)
    reads books.Values
  {
    Apart(books) && forall p :: p in books ==> books[p].Valid()
  }

  ghost function Views(books: map<Pair, OrderBook>): map<Pair, Book>
    reads books.Values
  {
    map p | p in books :: books[p].View()
  }

  lemma ViewsAre(books: map<Pair, OrderBook>, views: map<Pair, Book>)
    requires Apart(books) && views.Keys == books.Keys
    requires forall p :: p in books ==> books[p].Valid() && books[p].View() == views[p]
    ensures Sound(books) && Views(books) == views
  {
  }

  /** An empty book for each supported pair. */
  method NewBooks() returns (books: map<Pair, OrderBook>)
    ensures Apart(books) && fresh(books.Values) && books.Keys == {Pair(BTC, USD), Pair(ETH, USD)}
    ensures forall p :: p in books ==> books[p].Valid() && books[p].View() == EMPTY_BOOK
  {
    var btc := new OrderBook();
    var eth := new OrderBook();
    books := map[BTC_USD := btc, ETH_USD := eth];
  }

  /** The state behind the handlers: one order book object for each market. */
  class AppState {
    const books: map<Pair, OrderBook>
    var log: seq<Trade>
    const store: Store
    var tradeTx: seq<Trade>
    var bookTx: seq<Pair>

    ghost predicate Valid()
      reads this, store, books.Values
    {
      Sound(books) && store.Valid()
    }

    ghost function View(): Shared
      reads this, store, books.Values
    {
      Shared(Views(books), log, store.db, tradeTx, bookTx)
    }

    constructor ()
      ensures Valid() && fresh(books.Values) && fresh(store)
      ensures View() == Shared(map[Pair(BTC, USD) := EMPTY_BOOK, Pair(ETH, USD) := EMPTY_BOOK], [], map[], [], [])
    {
      var markets := NewBooks();
      var empty := new Store();
      books, store := markets, empty;
      log, tradeTx, bookTx := [], [], [];
      new;
      ViewsAre(books, map[Pair(BTC, USD) := EMPTY_BOOK, Pair(ETH, USD) := EMPTY_BOOK]);
    }

    /** The insert loop: one trade after the other until one fails. */
    method Persist(trades: seq<Trade>, fails: Option<nat>) returns (ok: bool)
      requires store.Valid()
      modifies store
      ensures store.Valid()
      ensures ok <==> Inserted(trades, fails) == trades
      ensures store.db == InsertAll(old(store.db), Inserted(trades, fails))
    {
      ghost var goal := InsertAll(store.db, Inserted(trades, fails));
      var n := 0;
      while n < |trades|
        invariant n <= |Inserted(trades, fails)| && store.Valid()
        invariant InsertAll(store.db, Inserted(trades, fails)[n..]) == goal
      {
        if fails == Some(n) {
          return false;
        }
        ghost var rest := Inserted(trades, fails)[n..];
        assert rest[0] == trades[n] && rest[1..] == Inserted(trades, fails)[n + 1..];
        store.InsertTrade(trades[n]);
        n := n + 1;
      }
      ok := true;
    }

    method Broadcast(trades: seq<Trade>)
      modifies this`tradeTx
      ensures tradeTx == old(tradeTx) + trades
    {
      for n := 0 to |trades|
        invariant tradeTx == old(tradeTx) + trades[..n]
      {
        tradeTx := tradeTx + [trades[n]];
        assert trades[..n + 1] == trades[..n] + [trades[n]];
      }
      assert trades[..|trades|] == trades;
    }

    method MatchIn(p: Pair, order: Order, clock: Clock) returns (trades: seq<Trade>)
      requires Sound(books) && p in books
      modifies books[p]
      ensures Sound(books)
      ensures trades == Match(old(Views(books))[p], order, clock).trades
      ensures Views(books) == old(Views(books))[p := Match(old(Views(books))[p], order, clock).book]
    {
      ghost var views := Views(books);
      trades := books[p].MatchOrder(order, clock);
      ViewsAre(books, views[p := Match(views[p], order, clock).book]);
    }

    method CancelIn(p: Pair, id: u128) returns (found: bool)
      requires Sound(books) && p in books
      modifies books[p]
      ensures Sound(books)
      ensures found <==> old(Views(books))[p].Holds(id)
      ensures Views(books) == old(Views(books))[p := CancelFirst(old(Views(books))[p], id)]
    {
      ghost var views := Views(books);
      found := books[p].CancelOrder(id);
      ViewsAre(books, views[p := CancelFirst(views[p], id)]);
    }

    method CreateOrder(ask: NewOrder, id: u128, time: u128, clock: Clock, fails: Option<nat>) returns (r: Response)
      requires Valid()
      modifies this, store, books.Values
      ensures Valid()
      ensures (View(), r) == Created(old(View()), ask, id, time, clock, fails)
    {
      if ask.quantity == 0 {
        return BadRequest;
      }
      if ask.pair !in books {
        return BadRequest;
      }
      var trades := MatchIn(ask.pair, ask.Placed(id, time), clock);
      r := RecordAll(ask.pair, id, trades, fails);
    }

    method RecordAll(p: Pair, id: u128, trades: seq<Trade>, fails: Option<nat>) returns (r: Response)
      requires Valid()
      modifies this, store
      ensures Valid()
      ensures (View(), r) == Recorded(old(View()), p, id, trades, fails)
    {
      ghost var views := Views(books);
      r := Record(p, id, trades, fails, views);
      ViewsAre(books, views);
    }

    /** What follows the match: log, store, broadcast. */
    method Record(p: Pair, id: u128, trades: seq<Trade>, fails: Option<nat>, ghost views: map<Pair, Book>)
      returns (r: Response)
      requires store.Valid()
      modifies this, store
      ensures store.Valid()
      ensures (Shared(views, log, store.db, tradeTx, bookTx), r) ==
        Recorded(old(Shared(views, log, store.db, tradeTx, bookTx)), p, id, trades, fails)
    {
      log := log + trades;
      var ok := Persist(trades, fails);
      if !ok {
        return StoreError;
      }
      Broadcast(trades);
      bookTx := bookTx + [p];
      return Ack(id, trades);
    }

    method CancelOrder(p: Pair, id: u128) returns (r: Response)
      requires Valid()
      modifies this`bookTx, books.Values
      ensures Valid()
      ensures (View(), r) == Deleted(old(View()), p, id)
    {
      if p !in books {
        return BadRequest;
      }
      ghost var before := Views(books);
      CancelAbsent(before, p, id);
      var found := CancelIn(p, id);
      if !found {
        assert Views(books) == before;
        return OrderNotFound;
      }
      ghost var after := Views(books);
      bookTx := bookTx + [p];
      ViewsAre(books, after);
      return Ack(id, []);
    }
  }

  lemma CancelAbsent(views: map<Pair, Book>, p: Pair, id: u128)
    requires p in views
    ensures !views[p].Holds(id) ==> views[p := CancelFirst(views[p], id)] == views
  {
    LowestIs(views[p].asks, id);
  }

  // ------------------------------------------------------- the answers, in plain terms

  /** A request to create an order is refused, and then changes nothing, if and only if it
      asks for nothing or for an unknown market. */
  lemma CreateRefused(g: Shared, ask: NewOrder, id: u128, time: u128, clock: Clock, fails: Option<nat>,
                      g': Shared, r: Response)
    requires (g', r) == Created(g, ask, id, time, clock, fails)
    ensures r == BadRequest <==> ask.quantity == 0 || ask.pair !in g.books
    ensures r == BadRequest ==> g' == g
  {
  }

  /** The order is matched in its market alone, and what it asked for is bought or sold
      and, if it is a limit order with a price, rests; nothing is added or lost. */
  lemma CreateAccepted(g: Shared, ask: NewOrder, id: u128, time: u128, clock: Clock, fails: Option<nat>,
                       g': Shared, r: Response, ts: seq<Trade>)
    requires (g', r) == Created(g, ask, id, time, clock, fails) && r != BadRequest
    requires ValidBook(g.books[ask.pair]) && !g.books[ask.pair].Holds(id)
    requires g'.log == g.log + ts
    ensures g'.books.Keys == g.books.Keys && forall p :: p in g.books && p != ask.pair ==> g'.books[p] == g.books[p]
    ensures forall t :: t in ts ==> t.takerId == id
    ensures var own := if ask.side == Buy then g'.books[ask.pair].bids else g'.books[ask.pair].asks;
      if ask.orderType == Limit && ask.price.Some? then
        && Total(ts) + Qty(own, id) == ask.quantity
        && (Qty(own, id) > 0 ==> Order(id, ask.side, Limit, ask.price, Qty(own, id), time, ask.pair) in own)
      else
        var facing := if ask.side == Buy then g.books[ask.pair].asks else g.books[ask.pair].bids;
        !g'.books[ask.pair].Holds(id) && Total(ts) == Terms.Smaller(ask.quantity, Depth(facing))
  {
    var b, o := g.books[ask.pair], ask.Placed(id, time);
    var m := Match(b, o, clock);
    assert g'.books[ask.pair] == m.book && g'.log[|g.log|..] == ts == m.trades;
    FillTaker(b.On(o.side.Opposite()), TakerOf(o, clock), o.quantity, 0);
    Terms.RestsExactly(b, o, clock);
    if ask.orderType == Limit && ask.price.Some? {
      MatchKeepsBook(b, o, clock);
      OwnQuantity(b, o, clock);
    } else {
      Terms.NoLimitTakesAll(b, o, clock);
    }
  }

  /** The quantity under the order's id on its own side is what is left of it. */
  lemma OwnQuantity(b: Book, o: Order, clock: Clock)
    requires ValidBook(b) && !b.Holds(o.id) && o.orderType == Limit && o.price.Some?
    ensures var m := Match(b, o, clock);
      Qty(Terms.Joining(m.book, o), o.id) == m.left == o.quantity - Total(m.trades)
  {
    Terms.RestsExactly(b, o, clock);
    Exchange.QtyRest(o.side, Terms.Joining(b, o), o.(quantity := Match(b, o, clock).left), o.id);
    QtyAbsent(Terms.Joining(b, o), o.id);
  }

  /** An accepted request answers with its id and exactly the trades the log gained, which
      are then stored and broadcast, and its market is announced once; or an insert fails
      after `n` of them, and then those are stored and nothing is broadcast. */
  lemma CreateAnswers(g: Shared, ask: NewOrder, id: u128, time: u128, clock: Clock, fails: Option<nat>,
                      g': Shared, r: Response, ts: seq<Trade>)
    requires (g', r) == Created(g, ask, id, time, clock, fails) && r != BadRequest
    requires g'.log == g.log + ts
    ensures r == (if fails.Some? && fails.value < |ts| then StoreError else Ack(id, ts))
    ensures r.Ack? ==> g'.feed == g.feed + ts && g'.notes == g.notes + [ask.pair] && g'.db == InsertAll(g.db, ts)
    ensures r == StoreError ==> g'.feed == g.feed && g'.notes == g.notes && g'.db == InsertAll(g.db, ts[..fails.value])
  {
    var m := Match(g.books[ask.pair], ask.Placed(id, time), clock);
    assert g'.log[|g.log|..] == ts == m.trades;
    if fails.Some? && fails.value < |ts| {
      assert |ts[..fails.value]| < |ts|;
    }
  }

  /** A request to cancel is answered by whether the market exists and holds the id. If it
      does, exactly that order leaves its market's book and the market is announced once;
      if not, nothing changes. */
  lemma DeleteAnswers(g: Shared, p: Pair, id: u128, g': Shared, r: Response)
    requires (g', r) == Deleted(g, p, id)
    ensures r == (if p !in g.books then BadRequest else if !g.books[p].Holds(id) then OrderNotFound else Ack(id, []))
    ensures !r.Ack? ==> g' == g
    ensures r.Ack? ==> g'.log == g.log && g'.db == g.db && g'.feed == g.feed && g'.notes == g.notes + [p]
    ensures r.Ack? ==> g'.books.Keys == g.books.Keys && forall x :: x in g.books && x != p ==> g'.books[x] == g.books[x]
    ensures r.Ack? && ValidBook(g.books[p]) ==>
      && (forall x :: x in g'.books[p].bids <==> x in g.books[p].bids && x.id != id)
      && (forall x :: x in g'.books[p].asks <==> x in g.books[p].asks && x.id != id)
  {
    if r.Ack? && ValidBook(g.books[p]) {
      CancelFirstIsCancel(g.books[p], id);
      Levels.WithoutMembers(g.books[p].bids, id);
      Levels.WithoutMembers(g.books[p].asks, id);
    }
  }

  // ------------------------------------------------- an undisturbed protocol run

  function SharedOf(s: State): Shared {
    Shared(s.x.books, s.log, s.db, s.feed, s.notes)
  }

  /** All requests there were, and all clients, are as they were. */
  ghost predicate OthersKept(s: State, s': State) {
    s'.clients == s.clients && forall x :: x in s.reqs ==> x in s'.reqs && s'.reqs[x] == s.reqs[x]
  }

  ghost predicate Free(s: State) {
    s.bookLock.None? && s.logLock.None? && s.storeLock.None?
  }

  /** A request that nothing interrupts gets the lock of the books. */
  lemma Entered(es0: seq<Event>, r: nat, ask: NewOrder) returns (es: seq<Event>)
    requires r !in After(es0).reqs && Free(After(es0)) && ask.quantity > 0
    ensures Continues(es0, es, r)
    ensures var s0 := After(es0);
      After(es) == s0.(reqs := s0.reqs[r := Create(ask, HasBooks, EMPTY_BOOK, 0, [], 0, 0)], bookLock := Some(r))
  {
    es := Go(es0, es0, Post(r, ask), r);
    es := Go(es0, es, Protocol.Event.Engine(r, LockBooks), r);
  }

  /** Then that of the log. */
  lemma Locked(es0: seq<Event>, r: nat, ask: NewOrder) returns (es: seq<Event>)
    requires r !in After(es0).reqs && Free(After(es0)) && ask.quantity > 0 && ask.pair in After(es0).x.books
    ensures Continues(es0, es, r)
    ensures var s0 := After(es0);
      var q := Create(ask, HasBoth, EMPTY_BOOK, 0, [], 0, 0);
      After(es) == s0.(reqs := s0.reqs[r := q], bookLock := Some(r), logLock := Some(r))
  {
    es := Entered(es0, r, ask);
    es := Go(es0, es, Protocol.Event.Engine(r, LockLog), r);
  }

  /** It reads its market's book. */
  lemma Looked(es0: seq<Event>, r: nat, ask: NewOrder) returns (es: seq<Event>)
    requires r !in After(es0).reqs && Free(After(es0)) && ask.quantity > 0 && ask.pair in After(es0).x.books
    ensures Continues(es0, es, r)
    ensures var s0 := After(es0);
      var q := Create(ask, Looking, s0.x.books[ask.pair], 0, [], 0, 0);
      After(es) == s0.(reqs := s0.reqs[r := q], bookLock := Some(r), logLock := Some(r))
  {
    es := Locked(es0, r, ask);
    es := Go(es0, es, Protocol.Event.Engine(r, ReadBook), r);
  }

  lemma MatchEffect(s: State, r: nat, id: u128, time: u128, clock: Clock)
    requires EngineEnabled(s, r, MatchNow(id, time, clock)) && s.reqs[r].ask.quantity > 0
    ensures var s', q := EngineApply(s, r, MatchNow(id, time, clock)), s.reqs[r];
      var m := Match(q.seen, q.ask.Placed(id, time), clock);
      && SharedOf(s') == SharedOf(s).(books := s.x.books[q.ask.pair := m.book])
      && s'.reqs == s.reqs[r := q.(stage := Unlogged, id := id, trades := m.trades)]
      && s'.bookLock == s.bookLock && s'.logLock == s.logLock && s'.storeLock == s.storeLock
  {
    assert s.x.books[s.reqs[r].ask.pair := s.reqs[r].seen].Keys == s.x.books.Keys + {s.reqs[r].ask.pair};
  }

  lemma LogEffect(s: State, r: nat)
    requires EngineEnabled(s, r, LogNow)
    ensures var s', q := EngineApply(s, r, LogNow), s.reqs[r];
      && SharedOf(s') == SharedOf(s).(log := s.log + q.trades)
      && s'.reqs == s.At(r, Logged).reqs
      && s'.bookLock.None? && s'.logLock.None? && s'.storeLock == s.storeLock
  {
  }

  /** It matches and logs. */
  lemma Matched(es0: seq<Event>, r: nat, id: u128, time: u128, clock: Clock) returns (es: seq<Event>)
    requires EngineEnabled(After(es0), r, MatchNow(id, time, clock)) && After(es0).reqs[r].ask.quantity > 0
    ensures Continues(es0, es, r)
    ensures var s0, s := After(es0), After(es);
      var q := s0.reqs[r];
      var m := Match(q.seen, q.ask.Placed(id, time), clock);
      && SharedOf(s) == SharedOf(s0).(books := s0.x.books[q.ask.pair := m.book], log := s0.log + m.trades)
      && s.reqs == s0.reqs[r := q.(stage := Logged, id := id, trades := m.trades)]
      && s.bookLock.None? && s.logLock.None? && s.storeLock == s0.storeLock
  {
    MatchEffect(After(es0), r, id, time, clock);
    es := Go(es0, es0, Protocol.Event.Engine(r, MatchNow(id, time, clock)), r);
    LogEffect(After(es), r);
    es := Go(es0, es, Protocol.Event.Engine(r, LogNow), r);
  }

  /** The engine's part of a request that nothing interrupts. */
  lemma Engaged(es0: seq<Event>, r: nat, ask: NewOrder, id: u128, time: u128, clock: Clock) returns (es: seq<Event>)
    requires r !in After(es0).reqs && Free(After(es0))
    requires ask.quantity > 0 && ask.pair in After(es0).x.books && !Has(After(es0).x.orders, id)
    ensures Continues(es0, es, r)
    ensures var s0, s := After(es0), After(es);
      var m := Match(s0.x.books[ask.pair], ask.Placed(id, time), clock);
      && SharedOf(s) == SharedOf(s0).(books := s0.x.books[ask.pair := m.book], log := s0.log + m.trades)
      && s.reqs == s0.reqs[r := Create(ask, Storing, s0.x.books[ask.pair], id, m.trades, 0, 0)]
      && s.bookLock.None? && s.logLock.None? && s.storeLock == Some(r)
  {
    var es1 := Looked(es0, r, ask);
    es := Matched(es1, r, id, time, clock);
    ContinuesOn(es0, es1, es, r);
    es := Go(es0, es, Archive(r, LockStore), r);
  }

  ghost predicate SameLocks(s: State, s': State) {
    s'.bookLock == s.bookLock && s'.logLock == s.logLock && s'.storeLock == s.storeLock
  }

  lemma InsertOne(es0: seq<Event>, r: nat) returns (es: seq<Event>)
    requires Creating(After(es0), r, Storing) && After(es0).reqs[r].saved < |After(es0).reqs[r].trades|
    ensures Continues(es0, es, r)
    ensures var s0, s := After(es0), After(es);
      var q := s0.reqs[r];
      var t := q.trades[q.saved];
      && SharedOf(s) == SharedOf(s0).(db := s0.db[KeyOf(t) := t])
      && s.reqs == s0.reqs[r := q.(saved := q.saved + 1)] && SameLocks(s0, s)
  {
    es := Go(es0, es0, Archive(r, Insert), r);
  }

  lemma SendOne(es0: seq<Event>, r: nat) returns (es: seq<Event>)
    requires Creating(After(es0), r, Sending) && After(es0).reqs[r].sent < |After(es0).reqs[r].trades|
    ensures Continues(es0, es, r) && HasSent(After(es0), After(es), r, 1)
  {
    es := Go(es0, es0, Archive(r, Send), r);
    var q := After(es0).reqs[r];
    assert q.trades[q.sent..q.sent + 1] == [q.trades[q.sent]];
  }

  lemma SliceStep(feed: seq<Trade>, ts: seq<Trade>, i: nat, n: nat)
    requires 0 < n && i + n <= |ts|
    ensures ts[i..i + n][0] == ts[i] && ts[i..i + n][1..] == ts[i + 1..i + 1 + (n - 1)]
    ensures (feed + [ts[i]]) + ts[i + 1..i + 1 + (n - 1)] == feed + ts[i..i + n]
  {
    assert ts[i..i + n] == [ts[i]] + ts[i + 1..i + n];
  }

  /** `n` inserts in a row. */
  lemma {:induction false} Inserts(es0: seq<Event>, r: nat, n: nat) returns (es: seq<Event>)
    requires Creating(After(es0), r, Storing) && After(es0).reqs[r].saved + n <= |After(es0).reqs[r].trades|
    ensures Continues(es0, es, r)
    ensures var s0, s := After(es0), After(es);
      var q := s0.reqs[r];
      && SharedOf(s) == SharedOf(s0).(db := InsertAll(s0.db, q.trades[q.saved..q.saved + n]))
      && s.reqs == s0.reqs[r := q.(saved := q.saved + n)]
      && SameLocks(s0, s)
    decreases n
  {
    var s0 := After(es0);
    var q := s0.reqs[r];
    if n == 0 {
      es := es0;
    } else {
      var es1 := InsertOne(es0, r);
      es := Inserts(es1, r, n - 1);
      ContinuesOn(es0, es1, es, r);
      SliceStep([], q.trades, q.saved, n);
    }
  }

  /** `n` broadcasts in a row. */
  lemma {:induction false} Sends(es0: seq<Event>, r: nat, n: nat) returns (es: seq<Event>)
    requires Creating(After(es0), r, Sending) && After(es0).reqs[r].sent + n <= |After(es0).reqs[r].trades|
    ensures Continues(es0, es, r) && HasSent(After(es0), After(es), r, n)
    decreases n
  {
    if n == 0 {
      es := es0;
      SendsNone(After(es0), r);
    } else {
      var es1 := SendOne(es0, r);
      es := Sends(es1, r, n - 1);
      ContinuesOn(es0, es1, es, r);
      SendsJoin(After(es0), After(es1), After(es), r, n);
    }
  }

  /** The state after `n` broadcasts of the request. */
  ghost predicate HasSent(s0: State, s: State, r: nat, n: nat)
    requires r in s0.reqs && s0.reqs[r].Create? && s0.reqs[r].sent + n <= |s0.reqs[r].trades|
  {
    var q := s0.reqs[r];
    && SharedOf(s) == SharedOf(s0).(feed := s0.feed + q.trades[q.sent..q.sent + n])
    && s.reqs == s0.reqs[r := q.(sent := q.sent + n)]
    && SameLocks(s0, s)
  }

  lemma SendsNone(s: State, r: nat)
    requires r in s.reqs && s.reqs[r].Create? && s.reqs[r].sent <= |s.reqs[r].trades|
    ensures HasSent(s, s, r, 0)
  {
    assert s.feed + s.reqs[r].trades[s.reqs[r].sent..s.reqs[r].sent] == s.feed;
  }

  lemma SendsJoin(s0: State, s1: State, s: State, r: nat, n: nat)
    requires r in s0.reqs && s0.reqs[r].Create? && 0 < n && s0.reqs[r].sent + n <= |s0.reqs[r].trades|
    requires HasSent(s0, s1, r, 1) && HasSent(s1, s, r, n - 1)
    ensures HasSent(s0, s, r, n)
  {
    var q := s0.reqs[r];
    SliceStep(s0.feed, q.trades, q.sent, n);
    assert q.trades[q.sent..q.sent + 1] == [q.trades[q.sent]];
  }

  /** All trades are inserted; they are broadcast and the market announced. */
  lemma Completed(es0: seq<Event>, r: nat) returns (es: seq<Event>)
    requires Creating(After(es0), r, Storing) && After(es0).reqs[r].saved == |After(es0).reqs[r].trades|
    requires After(es0).reqs[r].sent == 0
    ensures Continues(es0, es, r)
    ensures var s0, s := After(es0), After(es);
      var q := s0.reqs[r];
      && SharedOf(s) == SharedOf(s0).(feed := s0.feed + q.trades, notes := s0.notes + [q.ask.pair])
      && s.reqs.Keys == s0.reqs.Keys && s.reqs[r].stage == Done
      && s.bookLock == s0.bookLock && s.logLock == s0.logLock && s.storeLock.None?
  {
    var n, ts := |After(es0).reqs[r].trades|, After(es0).reqs[r].trades;
    assert ts[0..n] == ts;
    var es1 := Go(es0, es0, Archive(r, StartSending), r);
    es := Sends(es1, r, n);
    ContinuesOn(es0, es1, es, r);
    es := Go(es0, es, Archive(r, Notify), r);
  }

  /** A request that is answered without a match. */
  lemma TurnedAway(es0: seq<Event>, r: nat, ask: NewOrder) returns (es: seq<Event>)
    requires r !in After(es0).reqs && Free(After(es0)) && (ask.quantity == 0 || ask.pair !in After(es0).x.books)
    ensures Continues(es0, es, r)
    ensures var s0, s := After(es0), After(es);
      SharedOf(s) == SharedOf(s0) && Free(s) && s.reqs.Keys == s0.reqs.Keys + {r} && s.reqs[r].stage == Refused
  {
    if ask.quantity == 0 {
      es := Go(es0, es0, Post(r, ask), r);
    } else {
      es := Entered(es0, r, ask);
      es := Go(es0, es, Protocol.Event.Engine(r, Refuse), r);
    }
  }

  /** The trades are stored up to a failure, or all, then broadcast and announced. */
  ghost predicate Archives(g: Shared, g': Shared, p: Pair, trades: seq<Trade>, fails: Option<nat>) {
    if Inserted(trades, fails) == trades then
      g' == g.(db := InsertAll(g.db, trades), feed := g.feed + trades, notes := g.notes + [p])
    else
      g' == g.(db := InsertAll(g.db, Inserted(trades, fails)))
  }

  /** A request that has matched and holds the store goes on to its end. */
  lemma Archived(es0: seq<Event>, r: nat, fails: Option<nat>) returns (es: seq<Event>)
    requires Creating(After(es0), r, Storing) && After(es0).reqs[r].saved == After(es0).reqs[r].sent == 0
    ensures Continues(es0, es, r)
    ensures After(es).reqs.Keys == After(es0).reqs.Keys
    ensures var s0, s := After(es0), After(es);
      var q := s0.reqs[r];
      && Archives(SharedOf(s0), SharedOf(s), q.ask.pair, q.trades, fails)
      && s.reqs[r].stage == (if Inserted(q.trades, fails) == q.trades then Done else Failed)
      && s.bookLock == s0.bookLock && s.logLock == s0.logLock && s.storeLock.None?
  {
    var ts := After(es0).reqs[r].trades;
    var n := |Inserted(ts, fails)|;
    assert ts[0..n] == Inserted(ts, fails);
    var es1 := Inserts(es0, r, n);
    if n < |ts| {
      es := Go(es0, es1, Archive(r, InsertFails), r);
    } else {
      es := Completed(es1, r);
      ContinuesOn(es0, es1, es, r);
    }
  }

  /** From any reachable state in which no lock is held, a create request can run to its
      end by steps of its own alone. That has exactly the effect of the handler, whether
      the request is refused, completes, or fails at an insert; it leaves every lock free
      again, and every other request and every client as it was. */
  lemma UndisturbedCreate(es0: seq<Event>, r: nat, ask: NewOrder, id: u128, time: u128, clock: Clock,
                          fails: Option<nat>)
    returns (es: seq<Event>)
    requires r !in After(es0).reqs && Free(After(es0)) && !Has(After(es0).x.orders, id)
    ensures Continues(es0, es, r)
    ensures var s0, s := After(es0), After(es);
      var out := Created(SharedOf(s0), ask, id, time, clock, fails);
      && SharedOf(s) == out.0 && Free(s)
      && s.reqs.Keys == s0.reqs.Keys + {r} && OthersKept(s0, s)
      && s.reqs[r].stage == (if out.1.Ack? then Done else if out.1.StoreError? then Failed else Refused)
  {
    if ask.quantity == 0 || ask.pair !in After(es0).x.books {
      es := TurnedAway(es0, r, ask);
    } else {
      var es1 := Engaged(es0, r, ask, id, time, clock);
      es := Archived(es1, r, fails);
      ContinuesOn(es0, es1, es, r);
    }
    Alone(es0, es, r);
  }

  lemma CancelEntered(es0: seq<Event>, r: nat, p: Pair, id: u128) returns (es: seq<Event>)
    requires r !in After(es0).reqs && Free(After(es0))
    ensures Continues(es0, es, r)
    ensures var s0 := After(es0);
      After(es) == s0.(reqs := s0.reqs[r := Delete(p, id, HasBooks, EMPTY_BOOK)], bookLock := Some(r))
  {
    es := Go(es0, es0, Remove(r, p, id), r);
    es := Go(es0, es, Protocol.Event.Engine(r, LockBooks), r);
  }

  lemma CancelLooked(es0: seq<Event>, r: nat, p: Pair, id: u128) returns (es: seq<Event>)
    requires r !in After(es0).reqs && Free(After(es0)) && p in After(es0).x.books
    ensures Continues(es0, es, r)
    ensures var s0 := After(es0);
      After(es) == s0.(reqs := s0.reqs[r := Delete(p, id, Looking, s0.x.books[p])], bookLock := Some(r))
  {
    es := CancelEntered(es0, r, p, id);
    es := Go(es0, es, Protocol.Event.Engine(r, ReadBook), r);
  }

  /** A cancel request for an unknown pair. */
  lemma CancelTurnedAway(es0: seq<Event>, r: nat, p: Pair, id: u128) returns (es: seq<Event>)
    requires r !in After(es0).reqs && Free(After(es0)) && p !in After(es0).x.books
    ensures Continues(es0, es, r)
    ensures var s0, s := After(es0), After(es);
      SharedOf(s) == SharedOf(s0) && Free(s) && s.reqs.Keys == s0.reqs.Keys + {r} && s.reqs[r].stage == Refused
  {
    es := CancelEntered(es0, r, p, id);
    es := Go(es0, es, Protocol.Event.Engine(r, Refuse), r);
  }

  lemma DeleteEffect(s: State, r: nat)
    requires EngineEnabled(s, r, DeleteNow) && s.reqs[r].pair in s.x.books
    ensures var s', q := EngineApply(s, r, DeleteNow), s.reqs[r];
      if q.seen.Holds(q.target) then
        && SharedOf(s') == SharedOf(s).(books := s.x.books[q.pair := Cancel(q.seen, q.target)])
        && s'.reqs == s.At(r, Found).reqs && SameLocks(s, s')
      else
        && SharedOf(s') == SharedOf(s) && s'.reqs == s.At(r, NotFound).reqs
        && s'.bookLock.None? && s'.logLock == s.logLock && s'.storeLock == s.storeLock
  {
    var q := s.reqs[r];
    var after := Cancel(q.seen, q.target);
    assert s.x.books[q.pair := q.seen][q.pair := after] == s.x.books[q.pair := after];
  }

  /** A cancel request that has read its market's book and is not interrupted. */
  lemma CancelFinished(es0: seq<Event>, r: nat) returns (es: seq<Event>)
    requires Deleting(After(es0), r, Looking) && After(es0).reqs[r].pair in After(es0).x.books
    requires After(es0).logLock.None? && After(es0).storeLock.None?
    ensures Continues(es0, es, r)
    ensures var s0, s := After(es0), After(es);
      var q := s0.reqs[r];
      && SharedOf(s) == (if q.seen.Holds(q.target)
         then SharedOf(s0).(books := s0.x.books[q.pair := Cancel(q.seen, q.target)], notes := s0.notes + [q.pair])
         else SharedOf(s0))
      && s.reqs.Keys == s0.reqs.Keys && Free(s)
      && s.reqs[r].stage == (if q.seen.Holds(q.target) then Done else NotFound)
  {
    DeleteEffect(After(es0), r);
    es := Go(es0, es0, Protocol.Event.Engine(r, DeleteNow), r);
    if After(es0).reqs[r].seen.Holds(After(es0).reqs[r].target) {
      es := Go(es0, es, Protocol.Event.Engine(r, NotifyDelete), r);
    }
  }

  lemma ReachableBook(es: seq<Event>, p: Pair, id: u128)
    requires p in After(es).x.books
    ensures CancelFirst(After(es).x.books[p], id) == Cancel(After(es).x.books[p], id)
  {
    Serializable(es);
    var s := After(es);
    assert Exchange.BookInv(s.x.orders, p, s.x.books[p]);
    CancelFirstIsCancel(s.x.books[p], id);
  }

  /** The same for a cancel request. */
  lemma UndisturbedCancel(es0: seq<Event>, r: nat, p: Pair, id: u128) returns (es: seq<Event>)
    requires r !in After(es0).reqs && Free(After(es0))
    ensures Continues(es0, es, r)
    ensures var s0, s := After(es0), After(es);
      var out := Deleted(SharedOf(s0), p, id);
      && SharedOf(s) == out.0 && Free(s)
      && s.reqs.Keys == s0.reqs.Keys + {r} && OthersKept(s0, s)
      && s.reqs[r].stage == (if out.1.Ack? then Done else if out.1.OrderNotFound? then NotFound else Refused)
  {
    if p !in After(es0).x.books {
      es := CancelTurnedAway(es0, r, p, id);
    } else {
      ReachableBook(es0, p, id);
      var es1 := CancelLooked(es0, r, p, id);
      es := CancelFinished(es1, r);
      ContinuesOn(es0, es1, es, r);
    }
    Alone(es0, es, r);
  }
}
