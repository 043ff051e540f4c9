/** Where the trades are: the log against a sequential run, the one request each trade
    belongs to, and the store against the inserts made. */
module Accounts {
  import opened Types
  import opened PriceTime
  import Exchange
  import opened Keys
  import opened TradeStore
  import opened Protocol
  import opened Locking

  /** What a request has read of its market's book is still true. */
  ghost predicate Sees(s: State, r: nat) {
    InStage(s, r, Looking) ==>
      PairOf(s.reqs[r]) in s.x.books && s.reqs[r].seen == s.x.books[PairOf(s.reqs[r])]
  }

  /** The books are those of a sequential run of the accepted events, in the order in
      which their requests held the lock. */
  ghost predicate Sequential(s: State) {
    && s.x == Exchange.Run(s.history) && Exchange.FreshRun(s.history)
    && forall r :: Sees(s, r)
  }

  lemma SeesTruly(s: State, r: nat)
    requires InStage(s, r, Looking) && Sees(s, r)
    ensures Seeing(s, r) == s.x
  {
  }

  lemma {:induction false} RunKeepsMarkets(es: seq<Exchange.Event>)
    ensures Exchange.Run(es).books.Keys == Exchange.START.books.Keys
  {
    if es != [] {
      RunKeepsMarkets(es[..|es| - 1]);
    }
  }

  lemma OneMore(es: seq<Exchange.Event>, e: Exchange.Event)
    requires Exchange.FreshRun(es) && Exchange.Fresh(Exchange.Run(es), e)
    ensures Exchange.FreshRun(es + [e]) && Exchange.Run(es + [e]) == Exchange.Step(Exchange.Run(es), e)
  {
    assert (es + [e])[..|es + [e]| - 1] == es;
  }

  /** Where a request can be after a step that makes it look, and what it then sees. */
  lemma EngineLooks(s: State, r: nat, e: EngineStep)
    requires EngineEnabled(s, r, e)
    ensures InStage(EngineApply(s, r, e), r, Looking) ==> e.ReadBook?
    ensures e.ReadBook? ==> EngineApply(s, r, e).reqs[r].seen == BookOf(s, PairOf(s.reqs[r]))
    ensures e.ReadBook? ==> PairOf(EngineApply(s, r, e).reqs[r]) == PairOf(s.reqs[r])
    ensures EngineApply(s, r, e).x != s.x ==> InStage(s, r, Looking)
  {
  }

  /** While one request holds the books, no other one writes them. */
  lemma EngineKeepsSight(s: State, r: nat, e: EngineStep, i: nat)
    requires EngineEnabled(s, r, e) && Shapes(s) && s.x.books.Keys == Exchange.START.books.Keys
    requires BookLockOk(s, r) && BookLockOk(s, i) && Sees(s, i)
    ensures Sees(EngineApply(s, r, e), i)
  {
    EngineFrame(s, r, e);
    EngineLooks(s, r, e);
    assert Shape(s.reqs[r]);
  }

  lemma EngineKeepsSequential(s: State, r: nat, e: EngineStep)
    requires EngineEnabled(s, r, e) && Shapes(s) && Locks(s) && Sequential(s)
    ensures Sequential(EngineApply(s, r, e))
  {
    EngineSequential(s, r, e);
    RunKeepsMarkets(s.history);
    forall i: nat ensures Sees(EngineApply(s, r, e), i) {
      assert LockOk(s, r) && LockOk(s, i) && Sees(s, i);
      EngineKeepsSight(s, r, e, i);
    }
  }

  lemma QuietKeepsSequential(s: State, s': State)
    requires Sequential(s) && s'.x == s.x && s'.history == s.history
    requires forall i: nat :: Sees(s, i) ==> Sees(s', i)
    ensures Sequential(s')
  {
  }

  lemma StepKeepsSequential(s: State, e: Event)
    requires Enabled(s, e) && Shapes(s) && Locks(s) && Sequential(s)
    ensures Sequential(Apply(s, e))
  {
    if e.Engine? {
      EngineKeepsSequential(s, e.r, e.engine);
    } else {
      forall i: nat | Sees(s, i) ensures Sees(Apply(s, e), i) {
        QuietKeepsSight(s, e, i);
      }
      QuietKeepsSight(s, e, 0);
      QuietKeepsSequential(s, Apply(s, e));
    }
  }

  lemma QuietKeepsSight(s: State, e: Event, i: nat)
    requires Enabled(s, e) && !e.Engine? && Sees(s, i)
    ensures Sees(Apply(s, e), i)
    ensures Apply(s, e).x == s.x && Apply(s, e).history == s.history
  {
    if e.Archive? {
      ArchiveFrame(s, e.r, e.archive);
    } else {
      OtherFrame(s, e);
    }
  }

  lemma EngineSequential(s: State, r: nat, e: EngineStep)
    requires EngineEnabled(s, r, e) && Sequential(s)
    ensures var s' := EngineApply(s, r, e);
      s'.x == Exchange.Run(s'.history) && Exchange.FreshRun(s'.history)
  {
    var q := s.reqs[r];
    assert Sees(s, r);
    match e
    case MatchNow(id, time, clock) =>
      SeesTruly(s, r);
      OneMore(s.history, Exchange.Submit(q.ask.Placed(id, time), clock));
    case DeleteNow =>
      SeesTruly(s, r);
      OneMore(s.history, Exchange.Withdraw(q.pair, q.target));
    case LockBooks =>
    case Refuse =>
    case LockLog =>
    case ReadBook =>
    case LogNow =>
    case NotifyDelete =>
    case Abort =>
  }

  /** The trades matched by the holder of the log and not yet written to it. */
  ghost function Unwritten(s: State): seq<Trade> {
    if s.logLock.Some? && Creating(s, s.logLock.value, Unlogged) then s.reqs[s.logLock.value].trades else []
  }

  /** The log is what was matched so far, in that order, up to the match in progress. */
  ghost predicate Logging(s: State) {
    s.x.log == s.log + Unwritten(s)
  }

  // -------------------------------------------------------------- whose trades

  ghost predicate OwnsTrades(x: Exchange.State, q: Request) {
    && q.Create?
    && Has(x.orders, q.id)
    && (forall t :: t in q.trades ==> t.takerId == q.id && t in x.log)
    && (forall i, j :: 0 <= i < j < |q.trades| ==> q.trades[i].makerId != q.trades[j].makerId)
  }

  ghost predicate OwnerOf(s: State, t: Trade, r: nat) {
    r in s.reqs && HasMatched(s.reqs[r]) && t in s.reqs[r].trades
  }

  /** Every trade ever matched belongs to exactly one request. */
  ghost predicate Owned(s: State) {
    && (forall r :: r in s.reqs && HasMatched(s.reqs[r]) ==> OwnsTrades(s.x, s.reqs[r]))
    && (forall a, b :: a in s.reqs && b in s.reqs && a != b && HasMatched(s.reqs[a]) && HasMatched(s.reqs[b]) ==>
          s.reqs[a].id != s.reqs[b].id)
    && (forall t :: t in s.x.log ==> exists r :: OwnerOf(s, t, r))
  }

  /** The same requests have matched the same trades. */
  ghost predicate SameOwners(s: State, s': State) {
    && s'.x.orders == s.x.orders && s'.x.log == s.x.log
    && (forall r :: (r in s.reqs && HasMatched(s.reqs[r])) <==> (r in s'.reqs && HasMatched(s'.reqs[r])))
    && (forall r :: r in s.reqs && HasMatched(s.reqs[r]) ==>
          s'.reqs[r].id == s.reqs[r].id && s'.reqs[r].trades == s.reqs[r].trades)
  }

  lemma OwnedFrame(s: State, s': State)
    requires Owned(s) && SameOwners(s, s')
    ensures Owned(s')
  {
    forall t | t in s'.x.log ensures exists r :: OwnerOf(s', t, r) {
      var r :| OwnerOf(s, t, r);
      assert OwnerOf(s', t, r);
    }
    forall r | r in s'.reqs && HasMatched(s'.reqs[r]) ensures OwnsTrades(s'.x, s'.reqs[r]) {
      assert OwnsTrades(s.x, s.reqs[r]);
    }
  }

  lemma MatchIsOwned(s: State, r: nat, id: u128, time: u128, clock: Clock)
    requires EngineEnabled(s, r, MatchNow(id, time, clock)) && Sequential(s) && Shape(s.reqs[r])
    ensures var s' := EngineApply(s, r, MatchNow(id, time, clock));
      && OwnsTrades(s'.x, s'.reqs[r])
      && s'.x.orders == s.x.orders + [s.reqs[r].ask.Placed(id, time)]
      && s'.x.log == s.x.log + s'.reqs[r].trades
  {
    var q := s.reqs[r];
    var o := q.ask.Placed(id, time);
    assert Sees(s, r);
    SeesTruly(s, r);
    RunKeepsMarkets(s.history);
    Exchange.RunKeepsInv(s.history);
    assert Exchange.BookInv(s.x.orders, o.pair, s.x.books[o.pair]);
    Exchange.MatchTrades(s.x.books[o.pair], o, clock);
    Exchange.ArrivalAppend(s.x.orders, o, id);
  }

  lemma LoggingAfterMatch(s: State, s': State, r: nat)
    requires s.logLock == s'.logLock == Some(r) && Creating(s, r, Looking) && Creating(s', r, Unlogged)
    requires s'.log == s.log && s'.x.log == s.x.log + s'.reqs[r].trades && Logging(s)
    ensures Logging(s')
  {
    assert s.log + [] == s.log;
  }

  lemma MatchEffects(s: State, r: nat, id: u128, time: u128, clock: Clock)
    requires EngineEnabled(s, r, MatchNow(id, time, clock))
    ensures var s' := EngineApply(s, r, MatchNow(id, time, clock));
      s'.log == s.log && s'.logLock == s.logLock && Creating(s', r, Unlogged)
  {
  }

  lemma MatchLogging(s: State, r: nat, id: u128, time: u128, clock: Clock)
    requires EngineEnabled(s, r, MatchNow(id, time, clock)) && Sequential(s) && s.logLock == Some(r) && Shape(s.reqs[r])
    requires Logging(s)
    ensures Logging(EngineApply(s, r, MatchNow(id, time, clock)))
  {
    MatchIsOwned(s, r, id, time, clock);
    MatchEffects(s, r, id, time, clock);
    LoggingAfterMatch(s, EngineApply(s, r, MatchNow(id, time, clock)), r);
  }

  lemma LogNowLogging(s: State, r: nat)
    requires EngineEnabled(s, r, LogNow) && s.logLock == Some(r) && Logging(s)
    ensures Logging(EngineApply(s, r, LogNow))
  {
    assert Unwritten(s) == s.reqs[r].trades;
  }

  lemma EngineLogs(s: State, r: nat, e: EngineStep)
    requires EngineEnabled(s, r, e) && !e.MatchNow? && !e.LogNow?
    ensures var s' := EngineApply(s, r, e);
      s'.log == s.log && s'.x.log == s.x.log && !Creating(s, r, Unlogged) && !Creating(s', r, Unlogged)
  {
  }

  /** Another request's unwritten trades are not touched. */
  lemma SameUnwritten(s: State, s': State, r: nat)
    requires !Creating(s, r, Unlogged) && !Creating(s', r, Unlogged) && Handed(s.logLock, s'.logLock, r)
    requires s'.reqs.Keys == s.reqs.Keys && forall i :: i in s.reqs && i != r ==> s'.reqs[i] == s.reqs[i]
    ensures Unwritten(s') == Unwritten(s)
  {
  }

  lemma EngineLogging(s: State, r: nat, e: EngineStep)
    requires EngineEnabled(s, r, e) && !e.MatchNow? && LogLockOk(s, r) && Logging(s)
    ensures Logging(EngineApply(s, r, e))
  {
    if e.LogNow? {
      LogNowLogging(s, r);
    } else {
      EngineFrame(s, r, e);
      EngineLogLock(s, r, e);
      EngineLogs(s, r, e);
      SameUnwritten(s, EngineApply(s, r, e), r);
    }
  }

  lemma StepKeepsLogging(s: State, e: Event)
    requires Enabled(s, e) && Locks(s) && Shapes(s) && Sequential(s) && Logging(s)
    ensures Logging(Apply(s, e))
  {
    assert s.logLock.Some? ==> LockOk(s, s.logLock.value);
    if e.Engine? {
      assert LockOk(s, e.r);
      if e.engine.MatchNow? {
        MatchLogging(s, e.r, e.engine.id, e.engine.time, e.engine.clock);
      } else {
        EngineLogging(s, e.r, e.engine);
      }
    } else if e.Archive? {
      ArchiveFrame(s, e.r, e.archive);
    } else {
      OtherFrame(s, e);
    }
  }

  lemma OwnsTradesGrows(x: Exchange.State, x': Exchange.State, o: Order, q: Request)
    requires OwnsTrades(x, q) && x'.orders == x.orders + [o] && forall t :: t in x.log ==> t in x'.log
    ensures OwnsTrades(x', q)
  {
    Exchange.ArrivalAppend(x.orders, o, q.id);
  }

  lemma MatchKeepsOwned(s: State, r: nat, id: u128, time: u128, clock: Clock)
    requires EngineEnabled(s, r, MatchNow(id, time, clock)) && Sequential(s) && Shape(s.reqs[r]) && Owned(s)
    ensures Owned(EngineApply(s, r, MatchNow(id, time, clock)))
  {
    var s' := EngineApply(s, r, MatchNow(id, time, clock));
    MatchIsOwned(s, r, id, time, clock);
    forall i | i in s'.reqs && i != r && HasMatched(s'.reqs[i])
      ensures OwnsTrades(s'.x, s'.reqs[i]) && s'.reqs[i].id != id
    {
      assert OwnsTrades(s.x, s.reqs[i]);
      OwnsTradesGrows(s.x, s'.x, s.reqs[r].ask.Placed(id, time), s.reqs[i]);
    }
    forall t | t in s'.x.log ensures exists i :: OwnerOf(s', t, i) {
      if t in s.x.log {
        var i :| OwnerOf(s, t, i);
        assert OwnerOf(s', t, i);
      } else {
        assert OwnerOf(s', t, r);
      }
    }
  }

  lemma StepKeepsOwned(s: State, e: Event)
    requires Enabled(s, e) && Sequential(s) && Shapes(s) && Owned(s)
    ensures Owned(Apply(s, e))
  {
    if e.Engine? && e.engine.MatchNow? {
      MatchKeepsOwned(s, e.r, e.engine.id, e.engine.time, e.engine.clock);
    } else {
      StepSameOwners(s, e);
      OwnedFrame(s, Apply(s, e));
    }
  }

  lemma MovedSameOwners(s: State, s': State, r: nat)
    requires s'.x.orders == s.x.orders && s'.x.log == s.x.log && s'.reqs.Keys == s.reqs.Keys && r in s.reqs
    requires forall i :: i in s.reqs && i != r ==> s'.reqs[i] == s.reqs[i]
    requires HasMatched(s.reqs[r]) <==> HasMatched(s'.reqs[r])
    requires HasMatched(s.reqs[r]) ==> s'.reqs[r].id == s.reqs[r].id && s'.reqs[r].trades == s.reqs[r].trades
    ensures SameOwners(s, s')
  {
  }

  lemma EngineSameOwners(s: State, r: nat, e: EngineStep)
    requires EngineEnabled(s, r, e) && !e.MatchNow? && Shape(s.reqs[r])
    ensures SameOwners(s, EngineApply(s, r, e))
  {
    EngineFrame(s, r, e);
    EngineQuiet(s, r, e);
    MovedSameOwners(s, EngineApply(s, r, e), r);
  }

  lemma StepSameOwners(s: State, e: Event)
    requires Enabled(s, e) && Shapes(s) && !(e.Engine? && e.engine.MatchNow?)
    ensures SameOwners(s, Apply(s, e))
  {
    if e.Engine? {
      EngineSameOwners(s, e.r, e.engine);
    } else if e.Archive? {
      ArchiveFrame(s, e.r, e.archive);
      MovedSameOwners(s, Apply(s, e), e.r);
    } else {
      OtherFrame(s, e);
    }
  }

  // ------------------------------------------------------------ as it was asked for

  /** The order says what the request asked for, word for word. */
  ghost predicate AsAsked(o: Order, q: Request) {
    && q.Create? && o.id == q.id
    && o.side == q.ask.side && o.orderType == q.ask.orderType && o.price == q.ask.price
    && o.quantity == q.ask.quantity && o.pair == q.ask.pair
  }

  ghost predicate Placing(x: Exchange.State, q: Request) {
    exists o :: o in x.orders && AsAsked(o, q)
  }

  /** Every request that has matched has placed the order it asked for. */
  ghost predicate Placed(s: State) {
    forall r :: r in s.reqs && HasMatched(s.reqs[r]) ==> Placing(s.x, s.reqs[r])
  }

  lemma StillPlacing(x: Exchange.State, x': Exchange.State, q: Request, q': Request)
    requires Placing(x, q) && forall o :: o in x.orders ==> o in x'.orders
    requires q'.Create? && q'.id == q.id && q'.ask == q.ask
    ensures Placing(x', q')
  {
    var o :| o in x.orders && AsAsked(o, q);
    assert AsAsked(o, q');
  }

  lemma MatchPlaces(s: State, r: nat, id: u128, time: u128, clock: Clock)
    requires EngineEnabled(s, r, MatchNow(id, time, clock)) && Sequential(s) && Shape(s.reqs[r])
    ensures var s' := EngineApply(s, r, MatchNow(id, time, clock));
      Placing(s'.x, s'.reqs[r])
  {
    var s' := EngineApply(s, r, MatchNow(id, time, clock));
    MatchIsOwned(s, r, id, time, clock);
    var o := s'.x.orders[|s.x.orders|];
    assert o in s'.x.orders && AsAsked(o, s'.reqs[r]);
  }

  lemma MatchKeepsPlaced(s: State, r: nat, id: u128, time: u128, clock: Clock)
    requires EngineEnabled(s, r, MatchNow(id, time, clock)) && Sequential(s) && Shape(s.reqs[r]) && Placed(s)
    ensures Placed(EngineApply(s, r, MatchNow(id, time, clock)))
  {
    var s' := EngineApply(s, r, MatchNow(id, time, clock));
    EngineFrame(s, r, MatchNow(id, time, clock));
    MatchIsOwned(s, r, id, time, clock);
    MatchPlaces(s, r, id, time, clock);
    forall i | i in s'.reqs && i != r && HasMatched(s'.reqs[i]) ensures Placing(s'.x, s'.reqs[i]) {
      StillPlacing(s.x, s'.x, s.reqs[i], s'.reqs[i]);
    }
  }

  /** A step after which the same requests have matched what they asked for. */
  lemma PlacedFrame(s: State, s': State)
    requires Placed(s) && s'.x.orders == s.x.orders
    requires forall r :: r in s'.reqs && HasMatched(s'.reqs[r]) ==>
      r in s.reqs && HasMatched(s.reqs[r]) && s'.reqs[r].id == s.reqs[r].id && s'.reqs[r].ask == s.reqs[r].ask
    ensures Placed(s')
  {
    forall r | r in s'.reqs && HasMatched(s'.reqs[r]) ensures Placing(s'.x, s'.reqs[r]) {
      StillPlacing(s.x, s'.x, s.reqs[r], s'.reqs[r]);
    }
  }

  lemma EngineKeepsPlaced(s: State, r: nat, e: EngineStep)
    requires EngineEnabled(s, r, e) && !e.MatchNow? && Shape(s.reqs[r]) && Placed(s)
    ensures Placed(EngineApply(s, r, e))
  {
    EngineFrame(s, r, e);
    EngineQuiet(s, r, e);
    EngineSameOwners(s, r, e);
    PlacedFrame(s, EngineApply(s, r, e));
  }

  lemma StepKeepsPlaced(s: State, e: Event)
    requires Enabled(s, e) && Sequential(s) && Shapes(s) && Placed(s)
    ensures Placed(Apply(s, e))
  {
    if e.Engine? {
      if e.engine.MatchNow? {
        MatchKeepsPlaced(s, e.r, e.engine.id, e.engine.time, e.engine.clock);
      } else {
        EngineKeepsPlaced(s, e.r, e.engine);
      }
    } else if e.Archive? {
      ArchiveFrame(s, e.r, e.archive);
      PlacedFrame(s, Apply(s, e));
    } else {
      OtherFrame(s, e);
      PlacedFrame(s, Apply(s, e));
    }
  }

  // ---------------------------------------------------------- in order of matching

  ghost predicate SliceAt(part: seq<Trade>, whole: seq<Trade>, k: nat) {
    k + |part| <= |whole| && whole[k..k + |part|] == part
  }

  /** `part` stands in `whole` without a gap. */
  ghost predicate IsSlice(part: seq<Trade>, whole: seq<Trade>) {
    exists k :: SliceAt(part, whole, k)
  }

  lemma SliceGrows(part: seq<Trade>, whole: seq<Trade>, more: seq<Trade>)
    requires IsSlice(part, whole) || part == more
    ensures IsSlice(part, whole + more)
  {
    if IsSlice(part, whole) {
      var k :| SliceAt(part, whole, k);
      assert SliceAt(part, whole + more, k);
    } else {
      assert SliceAt(part, whole + more, |whole|);
    }
  }

  /** The trades of a request stand together in the order of matching. */
  ghost predicate Sliced(s: State) {
    forall r :: r in s.reqs && HasMatched(s.reqs[r]) ==> IsSlice(s.reqs[r].trades, s.x.log)
  }

  lemma MatchKeepsSliced(s: State, r: nat, id: u128, time: u128, clock: Clock)
    requires EngineEnabled(s, r, MatchNow(id, time, clock)) && Sequential(s) && Shape(s.reqs[r]) && Sliced(s)
    ensures Sliced(EngineApply(s, r, MatchNow(id, time, clock)))
  {
    var s' := EngineApply(s, r, MatchNow(id, time, clock));
    MatchIsOwned(s, r, id, time, clock);
    EngineFrame(s, r, MatchNow(id, time, clock));
    var ts := s'.reqs[r].trades;
    forall i | i in s'.reqs && HasMatched(s'.reqs[i]) ensures IsSlice(s'.reqs[i].trades, s.x.log + ts) {
      SliceGrows(s'.reqs[i].trades, s.x.log, ts);
    }
  }

  lemma StepKeepsSliced(s: State, e: Event)
    requires Enabled(s, e) && Sequential(s) && Shapes(s) && Sliced(s)
    ensures Sliced(Apply(s, e))
  {
    if e.Engine? && e.engine.MatchNow? {
      MatchKeepsSliced(s, e.r, e.engine.id, e.engine.time, e.engine.clock);
    } else {
      StepSameOwners(s, e);
    }
  }

  // -------------------------------------------------------------------- the store

  ghost predicate NoDuplicates<T>(f: seq<T>) {
    forall i, j :: 0 <= i < j < |f| ==> f[i] != f[j]
  }

  function KeyOf(t: Trade): Bytes {
    EncodeKey(t.symbol, t)
  }

  /** Exactly the first `saved` trades of a request have been inserted. */
  ghost predicate SavedOk(persisted: seq<Trade>, q: Request) {
    q.Create? && forall i :: 0 <= i < |q.trades| ==> (i < q.saved <==> q.trades[i] in persisted)
  }

  /** The store holds the inserted trades, each under its key, and nothing else. */
  ghost predicate DbOk(db: Db, persisted: seq<Trade>) {
    && NoDuplicates(persisted)
    && (forall t :: t in persisted ==> KeyOf(t) in db && db[KeyOf(t)] == t)
    && (forall k :: k in db ==> db[k] in persisted && KeyOf(db[k]) == k)
  }

  ghost predicate Stored(s: State) {
    && (forall t :: t in s.persisted ==> t in s.x.log)
    && (forall r :: r in s.reqs && HasMatched(s.reqs[r]) ==> SavedOk(s.persisted, s.reqs[r]))
    && DbOk(s.db, s.persisted)
  }

  lemma InsertKeepsDb(db: Db, persisted: seq<Trade>, t: Trade)
    requires DbOk(db, persisted) && t !in persisted
    ensures DbOk(db[KeyOf(t) := t], persisted + [t]) && KeyOf(t) !in db
  {
    var db', all := db[KeyOf(t) := t], persisted + [t];
    if KeyOf(t) in db {
      KeyInjective(t, db[KeyOf(t)]);
    }
    forall u | u in all ensures KeyOf(u) in db' && db'[KeyOf(u)] == u {
      if u != t && KeyOf(u) == KeyOf(t) {
        KeyInjective(u, t);
      }
    }
  }

  lemma InsertKeepsSaved(s: State, r: nat, x: nat)
    requires ArchiveEnabled(s, r, Insert) && Owned(s) && x in s.reqs && HasMatched(s.reqs[x])
    requires SavedOk(s.persisted, s.reqs[x])
    ensures SavedOk(ArchiveApply(s, r, Insert).persisted, ArchiveApply(s, r, Insert).reqs[x])
  {
    var q, p := s.reqs[r], s.reqs[x];
    var t := q.trades[q.saved];
    assert OwnsTrades(s.x, q) && OwnsTrades(s.x, p);
    assert t in q.trades;
    forall i | 0 <= i < |p.trades| ensures p.trades[i] == t ==> x == r && i == q.saved {
      assert p.trades[i] in p.trades;
    }
  }

  lemma InsertKeepsStored(s: State, r: nat)
    requires ArchiveEnabled(s, r, Insert) && Owned(s) && Stored(s)
    ensures Stored(ArchiveApply(s, r, Insert))
  {
    var s', q := ArchiveApply(s, r, Insert), s.reqs[r];
    assert OwnsTrades(s.x, q) && SavedOk(s.persisted, q);
    assert q.trades[q.saved] in q.trades;
    InsertKeepsDb(s.db, s.persisted, q.trades[q.saved]);
    forall x | x in s'.reqs && HasMatched(s'.reqs[x]) ensures SavedOk(s'.persisted, s'.reqs[x]) {
      assert HasMatched(s.reqs[x]) && SavedOk(s.persisted, s.reqs[x]);
      InsertKeepsSaved(s, r, x);
    }
  }

  lemma StoredFrame(s: State, s': State)
    requires Stored(s) && s'.db == s.db && s'.persisted == s.persisted
    requires forall t :: t in s.x.log ==> t in s'.x.log
    requires forall r :: r in s'.reqs && HasMatched(s'.reqs[r]) ==>
      (r in s.reqs && HasMatched(s.reqs[r]) && SameSaved(s.reqs[r], s'.reqs[r])) || SavedOk(s.persisted, s'.reqs[r])
    ensures Stored(s')
  {
    forall r | r in s'.reqs && HasMatched(s'.reqs[r]) ensures SavedOk(s'.persisted, s'.reqs[r]) {
      if r in s.reqs && HasMatched(s.reqs[r]) && SameSaved(s.reqs[r], s'.reqs[r]) {
        assert SavedOk(s.persisted, s.reqs[r]);
      }
    }
  }

  ghost predicate SameSaved(q: Request, q': Request) {
    q.Create? && q'.Create? && q'.trades == q.trades && q'.saved == q.saved
  }

  lemma ArchiveKeepsStored(s: State, r: nat, e: ArchiveStep)
    requires ArchiveEnabled(s, r, e) && Owned(s) && Stored(s)
    ensures Stored(ArchiveApply(s, r, e))
  {
    if e.Insert? {
      InsertKeepsStored(s, r);
    } else {
      ArchiveFrame(s, r, e);
      ArchiveSaves(s, r, e);
      StoredFrame(s, ArchiveApply(s, r, e));
    }
  }

  lemma ArchiveSaves(s: State, r: nat, e: ArchiveStep)
    requires ArchiveEnabled(s, r, e) && !e.Insert?
    ensures var s' := ArchiveApply(s, r, e);
      s'.db == s.db && s'.persisted == s.persisted && s'.reqs[r].saved == s.reqs[r].saved
  {
  }

  /** New trades are not in the store yet: their taker is new. */
  lemma MatchIsUnsaved(s: State, r: nat, id: u128, time: u128, clock: Clock)
    requires EngineEnabled(s, r, MatchNow(id, time, clock)) && Sequential(s) && Shape(s.reqs[r]) && Stored(s)
    ensures SavedOk(s.persisted, EngineApply(s, r, MatchNow(id, time, clock)).reqs[r])
  {
    var q := EngineApply(s, r, MatchNow(id, time, clock)).reqs[r];
    MatchIsOwned(s, r, id, time, clock);
    Exchange.RunKeepsInv(s.history);
    forall t | t in s.x.log ensures t.takerId != id {
      assert Exchange.TradeInv(s.x.orders, t);
    }
    forall i | 0 <= i < |q.trades| ensures q.trades[i] !in s.persisted {
      assert q.trades[i] in q.trades;
    }
  }

  lemma EngineKeepsStored(s: State, r: nat, e: EngineStep)
    requires EngineEnabled(s, r, e) && Sequential(s) && Shapes(s) && Stored(s)
    ensures Stored(EngineApply(s, r, e))
  {
    EngineFrame(s, r, e);
    if e.MatchNow? {
      MatchIsUnsaved(s, r, e.id, e.time, e.clock);
      MatchIsOwned(s, r, e.id, e.time, e.clock);
    } else {
      EngineQuiet(s, r, e);
      EngineSameOwners(s, r, e);
    }
    StoredFrame(s, EngineApply(s, r, e));
  }

  lemma StepKeepsStored(s: State, e: Event)
    requires Enabled(s, e) && Sequential(s) && Shapes(s) && Owned(s) && Stored(s)
    ensures Stored(Apply(s, e))
  {
    if e.Engine? {
      EngineKeepsStored(s, e.r, e.engine);
    } else if e.Archive? {
      ArchiveKeepsStored(s, e.r, e.archive);
    } else {
      OtherFrame(s, e);
      StoredFrame(s, Apply(s, e));
    }
  }
}
