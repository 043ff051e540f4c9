/** `GET /trades/{pair}` end to end: a client that pages through the history of a
    market while requests keep running. */
module TradeLog {
  import opened Types
  import Exchange
  import Locking
  import opened Keys
  import opened TradeStore
  import opened Paging
  import opened Protocol
  import opened Accounts
  import opened Interleavings

  const SOFT_MAX_LIMIT: u64 := 1000

  datatype LogResponse = LogPage(effective: u64, page: Page) | InvalidLimit | InvalidCursor

  /** The handler: a limit of zero is refused, a large one is capped. */
  function GetTradeLog(db: Db, p: Pair, after: Option<Token>, limit: u64): LogResponse {
    if limit == 0 then InvalidLimit else
    match PageSpec(db, p.Code(), after, Room(Effective(limit)))
    case BadCursor => InvalidCursor
    case Ok(page) => LogPage(Effective(limit), page)
  }

  function Effective(limit: u64): u64 {
    if limit <= SOFT_MAX_LIMIT then limit else SOFT_MAX_LIMIT
  }

  function EffectiveAll(limits: seq<u64>): (r: seq<u64>)
    ensures |r| == |limits|
  {
    if limits == [] then [] else [Effective(limits[0])] + EffectiveAll(limits[1..])
  }

  /** A client following `next`, one request for each state of the store. */
  function Browse(dbs: seq<Db>, p: Pair, after: Option<Token>, limits: seq<u64>): Walk
    requires |dbs| == |limits|
  {
    if dbs == [] then Walk([], false, false) else
    match GetTradeLog(dbs[0], p, after, limits[0])
    case InvalidLimit => Walk([], false, true)
    case InvalidCursor => Walk([], false, true)
    case LogPage(_, page) =>
      if page.next.None? then LastPage(page) else Prepend(page, Browse(dbs[1..], p, page.next, limits[1..]))
  }

  lemma {:induction false} BrowseIsWalk(dbs: seq<Db>, p: Pair, after: Option<Token>, limits: seq<u64>)
    requires |dbs| == |limits| && forall l :: l in limits ==> l > 0
    ensures Browse(dbs, p, after, limits) == WalkFrom(dbs, p.Code(), after, EffectiveAll(limits))
    ensures forall l :: l in EffectiveAll(limits) ==> Room(l) > 0
  {
    if dbs != [] {
      assert limits[0] in limits && forall l :: l in limits[1..] ==> l in limits;
      assert EffectiveAll(limits)[1..] == EffectiveAll(limits[1..]);
      var r := PageSpec(dbs[0], p.Code(), after, Room(Effective(limits[0])));
      BrowseIsWalk(dbs[1..], p, if r.Ok? then r.value.next else None, limits[1..]);
    }
  }

  // ---------------------------------------------------------- one request, in numbers

  /** The first `n` trades, or all of them. */
  function FirstOf(h: seq<Trade>, n: nat): seq<Trade> {
    if |h| <= n then h else h[..n]
  }

  /** A request from the start gets the first `limit` trades of the market, at most 1000,
      is told how many it was given room for, and gets a cursor if and only if there are
      more. */
  lemma FirstAnswer(db: Db, p: Pair, limit: u64)
    requires Clean(db, p.Code()) && limit > 0
    ensures var h, n := History(db, p.Code()), if limit <= 1000 then limit else 1000;
      var r := GetTradeLog(db, p, None, limit);
      && r.LogPage? && r.effective == n
      && r.page.items == FirstOf(h, n) && (r.page.next.Some? <==> |h| > n)
  {
  }

  /** A request behind the `i`-th trade of the market gets the trades after it, in the same
      measure. The cursor is the one made from that trade. */
  lemma NextAnswer(db: Db, p: Pair, i: nat, limit: u64)
    requires Clean(db, p.Code()) && limit > 0 && i < |History(db, p.Code())|
    ensures var h, n := History(db, p.Code()), if limit <= 1000 then limit else 1000;
      var c := Cursor(1, h[i].timestamp, h[i].makerId, h[i].takerId, h[i].price, h[i].quantity);
      var r := GetTradeLog(db, p, Some(Encoded(c)), limit);
      && r.LogPage? && r.effective == n
      && r.page.items == FirstOf(h[i + 1..], n) && (r.page.next.Some? <==> |h[i + 1..]| > n)
  {
    var h, n := History(db, p.Code()), if limit <= 1000 then limit else 1000;
    PageBehind(db, p.Code(), h, i + 1, n);
  }

  /** A request is refused for its limit if and only if that is zero, and for its cursor if
      and only if that was not made from a stored trade of the market. */
  lemma RefusedExactly(db: Db, p: Pair, after: Option<Token>, limit: u64)
    requires Consistent(db)
    ensures GetTradeLog(db, p, after, limit) == InvalidLimit <==> limit == 0
    ensures GetTradeLog(db, p, after, limit) == InvalidCursor <==>
      limit > 0 && after.Some? && !FromStored(db, p.Code(), after.value)
  {
    if limit > 0 && after.Some? {
      CursorAccepted(db, p.Code(), after.value, Room(Effective(limit)));
    }
  }

  // ------------------------------------------------------ the store during a run

  /** In every run the store holds each trade under its own key and only trades of
      markets, whose codes have no colon. */
  lemma StoreInRun(es: seq<Event>)
    ensures Consistent(After(es).db) && AllColonFree(After(es).db)
  {
    var s := After(es);
    AlwaysSafe(es);
    Exchange.RunKeepsInv(s.history);
    forall k | k in s.db ensures ColonFree(s.db[k].symbol) {
      assert s.db[k] in s.x.log;
      assert Exchange.TradeInv(s.x.orders, s.db[k]);
      var p := s.x.orders[Exchange.Arrival(s.x.orders, s.db[k].makerId)].pair;
      PairCodes(p, p);
    }
  }

  lemma InsertIsNew(s: State, r: nat)
    requires ArchiveEnabled(s, r, Insert) && Stored(s)
    ensures Grows(s.db, ArchiveApply(s, r, Insert).db)
  {
    var q := s.reqs[r];
    assert SavedOk(s.persisted, q);
    InsertKeepsDb(s.db, s.persisted, q.trades[q.saved]);
  }

  lemma StepGrowsStore(s: State, e: Event)
    requires Enabled(s, e) && Stored(s)
    ensures Grows(s.db, Apply(s, e).db)
  {
    if e.Archive? {
      if e.archive.Insert? {
        InsertIsNew(s, e.r);
      } else {
        ArchiveSaves(s, e.r, e.archive);
      }
    } else if e.Engine? {
      Locking.EngineFrame(s, e.r, e.engine);
    } else {
      Locking.OtherFrame(s, e);
    }
  }

  lemma NextGrowsStore(es: seq<Event>, e: Event)
    ensures Grows(After(es).db, After(es + [e]).db)
  {
    assert (es + [e])[..|es|] == es;
    AlwaysSafe(es);
    var s := After(es);
    if Enabled(s, e) {
      StepGrowsStore(s, e);
    }
  }

  /** As a run goes on the store only grows: no stored trade is lost or replaced. */
  lemma {:induction false} RunGrowsStore(es: seq<Event>, more: seq<Event>)
    ensures Grows(After(es).db, After(es + more).db)
  {
    if more == [] {
      assert es + more == es;
    } else {
      var front, e := more[..|more| - 1], more[|more| - 1];
      RunGrowsStore(es, front);
      NextGrowsStore(es + front, e);
      assert es + more == es + front + [e];
    }
  }

  /** The stores a client meets at successive moments of one run. */
  function Stores(moments: seq<seq<Event>>): (r: seq<Db>)
    ensures |r| == |moments|
    ensures forall i :: 0 <= i < |r| ==> r[i] == After(moments[i]).db
  {
    if moments == [] then [] else [After(moments[0]).db] + Stores(moments[1..])
  }

  /** Each moment is a continuation of the one before. */
  ghost predicate Successive(moments: seq<seq<Event>>) {
    |moments| <= 1 || (moments[0] <= moments[1] && Successive(moments[1..]))
  }

  lemma {:induction false} StoresGrow(moments: seq<seq<Event>>)
    requires Successive(moments)
    ensures Growing(Stores(moments))
  {
    if |moments| > 1 {
      StoresGrow(moments[1..]);
      assert Stores(moments)[1..] == Stores(moments[1..]);
      assert moments[1] == moments[0] + moments[1][|moments[0]|..];
      RunGrowsStore(moments[0], moments[1][|moments[0]|..]);
    }
  }

  /** A client that pages through a market's history during any run of the exchange,
      with limits of at least one, is never refused a cursor it was given, sees trades
      of that market only, in strictly ascending order, and when it reaches the end
      has seen every one that was stored when it began. */
  lemma BrowseDuringRun(moments: seq<seq<Event>>, p: Pair, limits: seq<u64>)
    requires |moments| == |limits| > 0 && Successive(moments)
    requires forall l :: l in limits ==> l > 0
    ensures var w, db := Browse(Stores(moments), p, None, limits), After(moments[0]).db;
      && !w.rejected
      && (forall i, j :: 0 <= i < j < |w.items| ==> TradeLess(w.items[i], w.items[j]))
      && (forall t :: t in w.items ==> t.symbol == p.Code())
      && (w.done ==> forall k :: k in db && db[k].symbol == p.Code() ==> db[k] in w.items)
  {
    var dbs := Stores(moments);
    PairCodes(p, p);
    forall d | d in dbs ensures Clean(d, p.Code()) {
      var i :| 0 <= i < |dbs| && dbs[i] == d;
      StoreInRun(moments[i]);
      CleanIfColonFree(d, p.Code());
    }
    StoresGrow(moments);
    BrowseIsWalk(dbs, p, None, limits);
    WalkWithInserts(dbs, p.Code(), EffectiveAll(limits));
  }
}
