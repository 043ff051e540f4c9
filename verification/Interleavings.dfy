/** The protocol's promises, over every interleaving of requests and clients. */
module Interleavings {
  import opened Types
  import opened PriceTime
  import Levels
  import Exchange
  import opened Keys
  import opened TradeStore
  import opened Protocol
  import opened Locking
  import opened Accounts
  import opened Broadcasts
  import opened Watchers

  ghost predicate Safe(s: State) {
    && Shapes(s) && Locks(s) && Sequential(s) && Logging(s) && Owned(s) && Placed(s) && Sliced(s)
    && Stored(s) && Broadcasting(s) && Clients(s)
  }

  lemma StartIsSafe()
    ensures Safe(START)
  {
  }

  lemma StepKeepsSafe(s: State, e: Event)
    requires Enabled(s, e) && Safe(s)
    ensures Safe(Apply(s, e))
  {
    RunKeepsMarkets(s.history);
    StepKeepsShapes(s, e);
    StepKeepsLocks(s, e);
    StepKeepsSequential(s, e);
    StepKeepsLogging(s, e);
    StepKeepsOwned(s, e);
    StepKeepsPlaced(s, e);
    StepKeepsSliced(s, e);
    StepKeepsStored(s, e);
    StepKeepsBatched(s, e);
    StepKeepsSentOnce(s, e);
    StepKeepsClients(s, e);
  }

  /** Every interleaving of requests and clients, with any inserts failing and any
      requests abandoned where they wait, keeps every one of these invariants. */
  lemma {:induction false} AlwaysSafe(es: seq<Event>)
    ensures Safe(After(es))
  {
    if es == [] {
      StartIsSafe();
    } else {
      var before, e := es[..|es| - 1], es[|es| - 1];
      AlwaysSafe(before);
      if Enabled(After(before), e) {
        StepKeepsSafe(After(before), e);
      }
    }
  }

  /** There are two markets, BTC-USD and ETH-USD, at every moment. */
  lemma Markets(es: seq<Event>)
    ensures After(es).x.books.Keys == {Pair(BTC, USD), Pair(ETH, USD)}
  {
    AlwaysSafe(es);
    RunKeepsMarkets(After(es).history);
  }

  /** No two requests are ever inside the books, the log, or the store together. */
  lemma MutualExclusion(es: seq<Event>, a: nat, b: nat)
    requires a in After(es).reqs && b in After(es).reqs
    ensures var p, q := After(es).reqs[a], After(es).reqs[b];
      (HoldsBooks(p) && HoldsBooks(q)) || (HoldsLog(p) && HoldsLog(q)) || (HoldsStore(p) && HoldsStore(q)) ==> a == b
  {
    AlwaysSafe(es);
    assert LockOk(After(es), a) && LockOk(After(es), b);
  }

  /** The concurrent run is as good as a sequential one: its books are those of some
      run of whole orders and cancels with fresh ids, and its log is the log of that
      run, short of at most the one match whose trades are being written. */
  lemma Serializable(es: seq<Event>)
    ensures var s := After(es);
      && Exchange.FreshRun(s.history)
      && s.x == Exchange.Run(s.history) && Exchange.Inv(s.x)
      && s.x.log == s.log + Unwritten(s)
      && (s.logLock.None? ==> s.log == Exchange.Run(s.history).log)
  {
    AlwaysSafe(es);
    Exchange.RunKeepsInv(After(es).history);
  }

  /** In every interleaving a request that has matched has one order under its id, and that
      order has the side, type, price, quantity and market of the request. */
  lemma OrderAsAsked(es: seq<Event>, r: nat) returns (o: Order)
    requires r in After(es).reqs && HasMatched(After(es).reqs[r])
    ensures var x, q := After(es).x, After(es).reqs[r];
      && o in x.orders && o.id == q.id && (forall y :: y in x.orders && y.id == q.id ==> y == o)
      && o.side == q.ask.side && o.orderType == q.ask.orderType && o.price == q.ask.price
      && o.quantity == q.ask.quantity && o.pair == q.ask.pair
  {
    var s := After(es);
    AlwaysSafe(es);
    Exchange.RunKeepsInv(s.history);
    o :| o in s.x.orders && AsAsked(o, s.reqs[r]);
    forall y | y in s.x.orders && y.id == s.reqs[r].id ensures y == o {
      Levels.SameIdSameOrder(s.x.orders, y, o);
    }
  }

  lemma SameTradeSamePlace(log: seq<Trade>, i: nat, j: nat)
    requires Exchange.DistinctMatches(log) && i < j < |log|
    ensures log[i] != log[j]
  {
  }

  /** No trade is lost sight of: each logged trade belongs to one request only, and it
      is in the store under its key, or still to be inserted by that request, or that
      request has failed or was abandoned. */
  lemma TradeAccounted(es: seq<Event>, t: Trade) returns (r: nat)
    requires t in After(es).log
    ensures var s := After(es);
      && OwnerOf(s, t, r) && (forall i :: OwnerOf(s, t, i) ==> i == r)
      && (if t in s.persisted then KeyOf(t) in s.db && s.db[KeyOf(t)] == t
          else KeyOf(t) !in s.db && s.reqs[r].stage in {Logged, Storing, Failed, Aborted})
  {
    var s := After(es);
    AlwaysSafe(es);
    assert t in s.x.log;
    r :| OwnerOf(s, t, r);
    var q := s.reqs[r];
    assert OwnsTrades(s.x, q) && SavedOk(s.persisted, q) && Shape(q);
    forall i | OwnerOf(s, t, i) ensures i == r {
      assert OwnsTrades(s.x, s.reqs[i]);
    }
    var n :| 0 <= n < |q.trades| && q.trades[n] == t;
    if t !in s.persisted && KeyOf(t) in s.db {
      KeyInjective(t, s.db[KeyOf(t)]);
    }
    if q.stage == Unlogged {
      UnwrittenNotLogged(s, r, t);
    }
  }

  lemma UnwrittenNotLogged(s: State, r: nat, t: Trade)
    requires Locks(s) && Sequential(s) && Logging(s)
    requires Creating(s, r, Unlogged) && t in s.reqs[r].trades
    ensures t !in s.log
  {
    assert LockOk(s, r);
    var ts := s.reqs[r].trades;
    assert s.x.log == s.log + ts;
    Exchange.RunKeepsInv(s.history);
    SplitDistinct(s.log, ts, t);
  }

  lemma SplitDistinct(a: seq<Trade>, b: seq<Trade>, t: Trade)
    requires Exchange.DistinctMatches(a + b) && t in b
    ensures t !in a
  {
    var j :| 0 <= j < |b| && b[j] == t;
    forall i | 0 <= i < |a| ensures a[i] != t {
      SameTradeSamePlace(a + b, i, |a| + j);
    }
  }

  /** The channel carries the trades of every completed create request, each request
      once and its trades together in the order they were matched, then the first trades
      of the request that is sending; nothing else, no trade twice, and none before it is
      stored. A request that failed or was abandoned has sent nothing. */
  lemma BroadcastInOrder(es: seq<Event>)
    ensures var s := After(es);
      && s.feed == Batches(s, s.finished) + SentNow(s)
      && NoDuplicates(s.finished) && (forall r :: r in s.finished <==> Creating(s, r, Done))
      && NoDuplicates(s.feed)
      && (forall t :: t in s.feed ==> KeyOf(t) in s.db && s.db[KeyOf(t)] == t)
      && (forall r :: r in s.reqs && HasMatched(s.reqs[r]) ==>
            IsSlice(s.reqs[r].trades, s.x.log) && SentOk(s.feed, s.reqs[r]))
      && (forall r :: r in s.reqs && s.reqs[r].Create? && s.reqs[r].sent > 0 ==> s.reqs[r].stage in {Sending, Done})
  {
    AlwaysSafe(es);
    var s := After(es);
    forall r | r in s.reqs && s.reqs[r].Create? && s.reqs[r].sent > 0 ensures s.reqs[r].stage in {Sending, Done} {
      assert Shape(s.reqs[r]);
    }
  }

  /** Each broadcast trade has one owner, which has completed, or is sending and has
      come to this trade. */
  lemma BroadcastOwner(es: seq<Event>, t: Trade) returns (r: nat, i: nat)
    requires t in After(es).feed
    ensures var s := After(es);
      && OwnerOf(s, t, r) && (forall x :: OwnerOf(s, t, x) ==> x == r)
      && i < |s.reqs[r].trades| && s.reqs[r].trades[i] == t
      && (s.reqs[r].stage == Done || (s.reqs[r].stage == Sending && i < s.reqs[r].sent))
  {
    var s := After(es);
    AlwaysSafe(es);
    assert t in s.persisted && t in s.x.log;
    r :| OwnerOf(s, t, r);
    var q := s.reqs[r];
    assert OwnsTrades(s.x, q) && SentOk(s.feed, q) && Shape(q);
    forall x | OwnerOf(s, t, x) ensures x == r {
      assert OwnsTrades(s.x, s.reqs[x]);
    }
    i :| 0 <= i < |q.trades| && q.trades[i] == t;
  }

  lemma {:induction false} CountImage<T, K>(f: seq<T>, key: T -> K, image: set<K>)
    requires NoDuplicates(f)
    requires forall x, y :: x in f && y in f && key(x) == key(y) ==> x == y
    requires forall x :: x in f ==> key(x) in image
    requires forall k :: k in image ==> exists x :: x in f && key(x) == k
    ensures |image| == |f|
  {
    if f == [] {
      assert image == {};
    } else {
      var n := |f| - 1;
      var last, rest := f[n], f[..n];
      assert f == rest + [last];
      assert last !in rest;
      CountImage(rest, key, image - {key(last)});
      assert |image - {key(last)}| == |image| - 1;
    }
  }

  lemma CountKeys(db: Db, persisted: seq<Trade>)
    requires DbOk(db, persisted)
    ensures |db| == |persisted|
  {
    forall t, u | t in persisted && u in persisted && KeyOf(t) == KeyOf(u) ensures t == u {
      KeyInjective(t, u);
    }
    CountImage(persisted, KeyOf, db.Keys);
  }

  /** No two trades collide in the store: it has one entry for every trade inserted. */
  lemma NoCollision(es: seq<Event>)
    ensures var s := After(es);
      && |s.db| == |s.persisted| && NoDuplicates(s.persisted)
      && Consistent(s.db)
      && (forall t :: t in s.persisted ==> KeyOf(t) in s.db && s.db[KeyOf(t)] == t)
  {
    AlwaysSafe(es);
    CountKeys(After(es).db, After(es).persisted);
  }

  /** The store after inserting a list of trades, first to last. */
  function InsertAll(db: Db, ts: seq<Trade>): Db
    decreases ts
  {
    if ts == [] then db else InsertAll(db[KeyOf(ts[0]) := ts[0]], ts[1..])
  }

  lemma {:induction false} InsertAllIs(db: Db, persisted: seq<Trade>, ts: seq<Trade>)
    requires DbOk(db, persisted) && NoDuplicates(persisted + ts)
    ensures DbOk(InsertAll(db, ts), persisted + ts)
    decreases ts
  {
    if ts == [] {
      assert persisted + ts == persisted;
    } else {
      var t, rest := ts[0], ts[1..];
      assert (persisted + [t]) + rest == persisted + ts;
      NotYetThere(persisted, t, rest);
      InsertKeepsDb(db, persisted, t);
      InsertAllIs(db[KeyOf(t) := t], persisted + [t], rest);
    }
  }

  lemma NotYetThere(persisted: seq<Trade>, t: Trade, rest: seq<Trade>)
    requires NoDuplicates((persisted + [t]) + rest)
    ensures t !in persisted
  {
    var all := (persisted + [t]) + rest;
    assert all[|persisted|] == t;
    forall i | 0 <= i < |persisted| ensures persisted[i] != t {
      assert all[i] == persisted[i];
    }
  }

  /** Over every run of orders and cancels, whatever the clock reads, inserting the
      whole log gives a store with exactly one entry for each logged trade. */
  lemma ArchiveKeepsAll(es: seq<Exchange.Event>)
    requires Exchange.FreshRun(es)
    ensures var log, db := Exchange.Run(es).log, InsertAll(map[], Exchange.Run(es).log);
      |db| == |log| && DbOk(db, log)
  {
    var log := Exchange.Run(es).log;
    Exchange.RunKeepsInv(es);
    forall i, j | 0 <= i < j < |log| ensures log[i] != log[j] {
      SameTradeSamePlace(log, i, j);
    }
    assert [] + log == log;
    InsertAllIs(map[], [], log);
    CountKeys(InsertAll(map[], log), log);
  }

  /** No missed update: once a client has read all its notifications, the last
      snapshot it was sent shows the current book, unless the market has changed since
      it was last announced; that is so only while a request that changed it has not
      completed, or was lost. The trades sent are its market's, in channel order. */
  lemma NoMissedUpdate(es: seq<Event>, c: nat)
    requires c in After(es).clients && After(es).clients[c].phase == Idle
    ensures var s, k := After(es), After(es).clients[c];
      && (k.next == |s.notes| && k.pair !in s.unannounced ==> k.shown == BookOf(s, k.pair))
      && (k.pair in s.unannounced ==> exists r :: r in s.reqs && Owes(s.reqs[r], k.pair))
      && k.tradeFrom <= k.tradeNext <= |s.feed|
      && k.frames == OfSymbol(s.feed[k.tradeFrom..k.tradeNext], k.pair.Code())
  {
    AlwaysSafe(es);
    assert ClientOk(After(es), After(es).clients[c]);
  }

  lemma Extend(es: seq<Event>, e: Event)
    requires Enabled(After(es), e)
    ensures After(es + [e]) == Apply(After(es), e)
  {
    assert (es + [e])[..|es|] == es;
  }

  lemma More(es: seq<Event>, e: Event) returns (es': seq<Event>)
    requires Enabled(After(es), e)
    ensures es' == es + [e] && After(es') == Apply(After(es), e)
  {
    Extend(es, e);
    es' := es + [e];
  }

  // ------------------------------------------------------ the steps of one request

  predicate OfRequest(e: Event, r: nat) {
    !e.Join? && !e.Socket? && e.r == r
  }

  /** `es` goes on from `es0` by steps of request `r` alone. */
  ghost predicate Continues(es0: seq<Event>, es: seq<Event>, r: nat) {
    es0 <= es && forall i :: |es0| <= i < |es| ==> OfRequest(es[i], r)
  }

  lemma ContinuesOn(es0: seq<Event>, es1: seq<Event>, es2: seq<Event>, r: nat)
    requires Continues(es0, es1, r) && Continues(es1, es2, r)
    ensures Continues(es0, es2, r)
  {
    forall i | |es0| <= i < |es2| ensures OfRequest(es2[i], r) {
      if i < |es1| {
        assert es2[i] == es1[i];
      }
    }
  }

  /** One more step of the request. */
  lemma Go(es0: seq<Event>, es1: seq<Event>, e: Event, r: nat) returns (es: seq<Event>)
    requires Continues(es0, es1, r) && OfRequest(e, r) && Enabled(After(es1), e)
    ensures Continues(es0, es, r) && After(es) == Apply(After(es1), e)
  {
    es := More(es1, e);
  }

  lemma RequestFrame(s: State, e: Event, r: nat)
    requires OfRequest(e, r) && Enabled(s, e)
    ensures var s' := Apply(s, e);
      && s'.clients == s.clients
      && forall x :: x != r ==> (x in s'.reqs <==> x in s.reqs) && (x in s.reqs ==> s'.reqs[x] == s.reqs[x])
  {
    match e
    case Engine(_, step) => EngineFrame(s, r, step);
    case Archive(_, step) => ArchiveFrame(s, r, step);
    case Post(_, _) =>
    case Remove(_, _, _) =>
  }

  /** Steps of one request leave every other request and every client as they were. */
  lemma {:induction false} Alone(es0: seq<Event>, es: seq<Event>, r: nat)
    requires Continues(es0, es, r)
    ensures var s0, s := After(es0), After(es);
      && s.clients == s0.clients
      && forall x :: x != r ==> (x in s.reqs <==> x in s0.reqs) && (x in s0.reqs ==> s.reqs[x] == s0.reqs[x])
  {
    if |es| > |es0| {
      var front, e := es[..|es| - 1], es[|es| - 1];
      Alone(es0, front, r);
      if Enabled(After(front), e) {
        RequestFrame(After(front), e, r);
      }
    } else {
      assert es == es0;
    }
  }
}
