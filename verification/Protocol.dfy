/** Concurrent requests (`api.rs`, `state.rs`): a transition system over the locks,
    the books, the log, the store and the channels, one step for each thing a request
    does between two points where another request may run. */
module Protocol {
  import opened Types
  import opened PriceTime
  import Exchange
  import opened Keys
  import opened TradeStore

  /** The body of `POST /orders`. */
  datatype NewOrder = NewOrder(side: Side, orderType: OrderType, price: Option<u64>, quantity: u64, pair: Pair) {
    function Placed(id: u128, time: u128): Order {
      Order(id, side, orderType, price, quantity, time, pair)
    }
  }

  datatype Stage =
    | Asked      // waiting for the books
    | HasBooks   // holds the books (a create request now waits for the log)
    | HasBoth    // holds the books and the log
    | Looking    // holds the locks it needs and has read the book it is to change
    | Unlogged   // holds both, has matched, not yet logged
    | Logged     // has let go of books and log, waiting for the store
    | Storing    // holds the store, inserting trades
    | Sending    // holds the store, broadcasting trades
    | Found      // a cancel that removed its order and still holds the books
    | Done | NotFound | Refused
    | Failed     // an insert failed
    | GivenUp    // abandoned by the client before it did anything
    | Aborted    // abandoned by the client while waiting for the store

  /** A request: `seen` is the book it read, on which it works; `saved` and `sent`
      count its trades that were inserted and broadcast. */
  datatype Request =
    | Create(ask: NewOrder, stage: Stage, seen: Book, id: u128, trades: seq<Trade>, saved: nat, sent: nat)
    | Delete(pair: Pair, target: u128, stage: Stage, seen: Book)

  /** A websocket client between its steps. */
  datatype Phase = Joining | Opening | Idle | Refreshing

  /** `next` and `tradeNext` are the positions in the two broadcast channels, `shown`
      the book behind the last snapshot sent, `frames` the trades forwarded. */
  datatype Client = Client(pair: Pair, phase: Phase, next: nat, shown: Book,
                           tradeFrom: nat, tradeNext: nat, frames: seq<Trade>)

  /** `x` holds the books, and the history of accepted events that led to them is
      `history`; `persisted` lists successful inserts and `finished` the create
      requests that completed, each in the order it happened. `unannounced` holds the
      markets that have changed since they were last announced. */
  datatype State = State(
    x: Exchange.State,
    log: seq<Trade>,
    db: Db,
    feed: seq<Trade>,
    notes: seq<Pair>,
    bookLock: Option<nat>,
    logLock: Option<nat>,
    storeLock: Option<nat>,
    reqs: map<nat, Request>,
    clients: map<nat, Client>,
    history: seq<Exchange.Event>,
    persisted: seq<Trade>,
    finished: seq<nat>,
    unannounced: set<Pair>)
  {
    function With(r: nat, q: Request): State {
      this.(reqs := reqs[r := q])
    }

    function At(r: nat, stage: Stage): State
      requires r in reqs
    {
      this.(reqs := reqs[r := reqs[r].(stage := stage)])
    }

    function Seen(c: nat, k: Client): State {
      this.(clients := clients[c := k])
    }
  }

  const START := State(Exchange.START, [], map[], [], [], None, None, None, map[], map[], [], [], [], {})

  /** Steps under the locks of the books and the log. */
  datatype EngineStep =
    | LockBooks
    | Refuse
    | LockLog
    | ReadBook
    | MatchNow(id: u128, time: u128, clock: Clock)
    | LogNow
    | DeleteNow
    | NotifyDelete
    | Abort

  /** Steps under the lock of the store. */
  datatype ArchiveStep =
    | LockStore
    | Insert
    | InsertFails
    | StartSending
    | Send
    | Notify

  datatype SocketStep =
    | Open
    | FirstSnapshot
    | Take
    | Refresh
    | Forward

  datatype Event =
    | Post(r: nat, ask: NewOrder)
    | Remove(r: nat, pair: Pair, target: u128)
    | Engine(r: nat, engine: EngineStep)
    | Archive(r: nat, archive: ArchiveStep)
    | Join(c: nat, market: Pair)
    | Socket(c: nat, socket: SocketStep)

  predicate InStage(s: State, r: nat, stage: Stage) {
    r in s.reqs && s.reqs[r].stage == stage
  }

  predicate Creating(s: State, r: nat, stage: Stage) {
    InStage(s, r, stage) && s.reqs[r].Create?
  }

  predicate Deleting(s: State, r: nat, stage: Stage) {
    InStage(s, r, stage) && s.reqs[r].Delete?
  }

  predicate InPhase(s: State, c: nat, phase: Phase) {
    c in s.clients && s.clients[c].phase == phase
  }

  function PairOf(q: Request): Pair {
    match q
    case Create(ask, _, _, _, _, _, _) => ask.pair
    case Delete(p, _, _, _) => p
  }

  function BookOf(s: State, p: Pair): Book {
    if p in s.x.books then s.x.books[p] else EMPTY_BOOK
  }

  /** A write lock is granted when it is free. A new order's id is one never used. A
      request can be abandoned by its client only where it waits for a lock. */
  predicate EngineEnabled(s: State, r: nat, e: EngineStep) {
    match e
    case LockBooks => InStage(s, r, Asked) && s.bookLock.None?
    case Refuse => InStage(s, r, HasBooks) && PairOf(s.reqs[r]) !in s.x.books
    case LockLog => Creating(s, r, HasBooks) && PairOf(s.reqs[r]) in s.x.books && s.logLock.None?
    case ReadBook => Creating(s, r, HasBoth) || (Deleting(s, r, HasBooks) && PairOf(s.reqs[r]) in s.x.books)
    case MatchNow(id, _, _) => Creating(s, r, Looking) && !Has(s.x.orders, id)
    case LogNow => Creating(s, r, Unlogged)
    case DeleteNow => Deleting(s, r, Looking)
    case NotifyDelete => Deleting(s, r, Found)
    case Abort => InStage(s, r, Asked) || Creating(s, r, HasBooks) || Creating(s, r, Logged)
  }

  /** The books when the request writes: the market's book is the one it read, whatever
      has become of it since. */
  function Seeing(s: State, r: nat): Exchange.State
    requires r in s.reqs
  {
    s.x.(books := s.x.books[PairOf(s.reqs[r]) := s.reqs[r].seen])
  }

  function EngineApply(s: State, r: nat, e: EngineStep): State
    requires EngineEnabled(s, r, e)
  {
    var q := s.reqs[r];
    match e
    case LockBooks => s.At(r, HasBooks).(bookLock := Some(r))
    case Refuse => s.At(r, Refused).(bookLock := None)
    case LockLog => s.At(r, HasBoth).(logLock := Some(r))
    case ReadBook => s.With(r, q.(stage := Looking, seen := BookOf(s, PairOf(q))))
    case MatchNow(id, time, clock) =>
      var submit := Exchange.Submit(q.ask.Placed(id, time), clock);
      var trades := Match(q.seen, q.ask.Placed(id, time), clock).trades;
      s.With(r, q.(stage := Unlogged, id := id, trades := trades))
       .(x := Exchange.Step(Seeing(s, r), submit), history := s.history + [submit],
         unannounced := s.unannounced + {q.ask.pair})
    case LogNow => s.At(r, Logged).(log := s.log + q.trades, bookLock := None, logLock := None)
    case DeleteNow =>
      if q.seen.Holds(q.target) then
        var withdraw := Exchange.Withdraw(q.pair, q.target);
        s.At(r, Found).(x := Exchange.Step(Seeing(s, r), withdraw), history := s.history + [withdraw],
                        unannounced := s.unannounced + {q.pair})
      else
        s.At(r, NotFound).(bookLock := None)
    case NotifyDelete =>
      s.At(r, Done).(notes := s.notes + [q.pair], unannounced := s.unannounced - {q.pair}, bookLock := None)
    case Abort =>
      match q.stage {
        case Logged => s.At(r, Aborted)
        case HasBooks => s.At(r, GivenUp).(bookLock := None)
        case _ => s.At(r, GivenUp)
      }
  }

  predicate ArchiveEnabled(s: State, r: nat, e: ArchiveStep) {
    match e
    case LockStore => Creating(s, r, Logged) && s.storeLock.None?
    case Insert => Creating(s, r, Storing) && s.reqs[r].saved < |s.reqs[r].trades|
    case InsertFails => Creating(s, r, Storing) && s.reqs[r].saved < |s.reqs[r].trades|
    case StartSending => Creating(s, r, Storing) && s.reqs[r].saved == |s.reqs[r].trades|
    case Send => Creating(s, r, Sending) && s.reqs[r].sent < |s.reqs[r].trades|
    case Notify => Creating(s, r, Sending) && s.reqs[r].sent == |s.reqs[r].trades|
  }

  function ArchiveApply(s: State, r: nat, e: ArchiveStep): State
    requires ArchiveEnabled(s, r, e)
  {
    var q := s.reqs[r];
    match e
    case LockStore => s.At(r, Storing).(storeLock := Some(r))
    case Insert =>
      var t := q.trades[q.saved];
      s.With(r, q.(saved := q.saved + 1))
       .(db := s.db[EncodeKey(t.symbol, t) := t], persisted := s.persisted + [t])
    case InsertFails => s.At(r, Failed).(storeLock := None)
    case StartSending => s.At(r, Sending)
    case Send => s.With(r, q.(sent := q.sent + 1)).(feed := s.feed + [q.trades[q.sent]])
    case Notify =>
      s.At(r, Done).(notes := s.notes + [q.ask.pair], unannounced := s.unannounced - {q.ask.pair}, storeLock := None,
                     finished := s.finished + [r])
  }

  /** A snapshot needs the books not to be held by a writer. */
  predicate SocketEnabled(s: State, c: nat, e: SocketStep) {
    match e
    case Open => InPhase(s, c, Joining)
    case FirstSnapshot => InPhase(s, c, Opening) && s.bookLock.None?
    case Take => InPhase(s, c, Idle) && s.clients[c].next < |s.notes|
    case Refresh => InPhase(s, c, Refreshing) && s.bookLock.None?
    case Forward => InPhase(s, c, Idle) && s.clients[c].tradeNext < |s.feed|
  }

  function SocketApply(s: State, c: nat, e: SocketStep): State
    requires SocketEnabled(s, c, e)
  {
    var k := s.clients[c];
    match e
    case Open => s.Seen(c, k.(phase := Opening, next := |s.notes|))
    case FirstSnapshot => s.Seen(c, k.(phase := Idle, shown := BookOf(s, k.pair)))
    case Take => s.Seen(c, k.(next := k.next + 1, phase := if s.notes[k.next] == k.pair then Refreshing else Idle))
    case Refresh => s.Seen(c, k.(phase := Idle, shown := BookOf(s, k.pair)))
    case Forward =>
      var t := s.feed[k.tradeNext];
      s.Seen(c, k.(tradeNext := k.tradeNext + 1,
                   frames := if t.symbol == k.pair.Code() then k.frames + [t] else k.frames))
  }

  predicate Enabled(s: State, e: Event) {
    match e
    case Post(r, _) => r !in s.reqs
    case Remove(r, _, _) => r !in s.reqs
    case Engine(r, step) => EngineEnabled(s, r, step)
    case Archive(r, step) => ArchiveEnabled(s, r, step)
    case Join(c, _) => c !in s.clients
    case Socket(c, step) => SocketEnabled(s, c, step)
  }

  function Apply(s: State, e: Event): State
    requires Enabled(s, e)
  {
    match e
    case Post(r, ask) => s.With(r, Create(ask, if ask.quantity == 0 then Refused else Asked, EMPTY_BOOK, 0, [], 0, 0))
    case Remove(r, p, id) => s.With(r, Delete(p, id, Asked, EMPTY_BOOK))
    case Engine(r, step) => EngineApply(s, r, step)
    case Archive(r, step) => ArchiveApply(s, r, step)
    case Join(c, p) => s.Seen(c, Client(p, Joining, 0, EMPTY_BOOK, |s.feed|, |s.feed|, []))
    case Socket(c, step) => SocketApply(s, c, step)
  }

  /** Every sequence of events is a run: an event that cannot happen is skipped. */
  function After(es: seq<Event>): State {
    if es == [] then START else
      var s, e := After(es[..|es| - 1]), es[|es| - 1];
      if Enabled(s, e) then Apply(s, e) else s
  }
}
