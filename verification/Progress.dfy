/** No deadlock: whatever has happened so far, the requests under way can all go on to
    their end, none of them abandoned or failing. */
module Progress {
  import opened Types
  import opened PriceTime
  import Exchange
  import opened Protocol
  import opened Locking
  import opened Accounts
  import opened Interleavings

  /** The request has been answered or has given up. */
  predicate Final(q: Request) {
    q.stage in {Done, NotFound, Refused, Failed, GivenUp, Aborted}
  }

  /** It may still need the books, or holds them. */
  predicate Early(q: Request) {
    q.stage in {Asked, HasBooks, HasBoth, Looking, Unlogged, Found}
  }

  /** It has still to be given an id. */
  predicate Unnamed(q: Request) {
    q.Create? && q.stage in {Asked, HasBooks, HasBoth, Looking}
  }

  /** A step of a request that neither fails nor is abandoned. */
  predicate Goes(e: Event) {
    (e.Engine? && !e.engine.Abort?) || (e.Archive? && !e.archive.InsertFails?)
  }

  /** `es` goes on from `es0` with such steps only. */
  ghost predicate Onward(es0: seq<Event>, es: seq<Event>) {
    es0 <= es && forall i :: |es0| <= i < |es| ==> Goes(es[i])
  }

  lemma OnwardOn(es0: seq<Event>, es1: seq<Event>, es2: seq<Event>)
    requires Onward(es0, es1) && Onward(es1, es2)
    ensures Onward(es0, es2)
  {
    forall i | |es0| <= i < |es2| ensures Goes(es2[i]) {
      if i < |es1| {
        assert es2[i] == es1[i];
      }
    }
  }

  // ------------------------------------------------------------------- one step on

  /** Nothing the request still needs is held by another one. */
  ghost predicate Clear(s: State, r: nat)
    requires r in s.reqs
  {
    && (Early(s.reqs[r]) ==> s.bookLock.None? || s.bookLock == Some(r))
    && (s.reqs[r].Create? ==> s.storeLock.None? || s.storeLock == Some(r))
  }

  function EngineNext(s: State, r: nat, id: u128): EngineStep
    requires r in s.reqs
  {
    var q := s.reqs[r];
    match q.stage
    case Asked => LockBooks
    case HasBooks => if PairOf(q) !in s.x.books then Refuse else if q.Create? then LockLog else ReadBook
    case HasBoth => ReadBook
    case Looking => if q.Create? then MatchNow(id, 0, n => 0) else DeleteNow
    case Unlogged => LogNow
    case _ => NotifyDelete
  }

  function ArchiveNext(q: Request): ArchiveStep
    requires q.Create?
  {
    match q.stage
    case Logged => LockStore
    case Storing => if q.saved < |q.trades| then Insert else StartSending
    case _ => if q.sent < |q.trades| then Send else Notify
  }

  /** How many stages are still to come, and how much is to do in this one. */
  function ToGo(q: Request): nat {
    match q.stage
    case Asked => 8
    case HasBooks => 7
    case HasBoth => 6
    case Looking => 5
    case Unlogged => 4
    case Logged => 3
    case Storing => 2
    case Sending => 1
    case Found => 1
    case _ => 0
  }

  function Left(q: Request): nat {
    if q.Delete? then 0 else Remaining(|q.trades|, if q.stage == Storing then q.saved else q.sent)
  }

  function Remaining(all: nat, done: nat): nat {
    if done <= all then all - done else 0
  }

  ghost predicate Closer(q: Request, q': Request) {
    ToGo(q') < ToGo(q) || (ToGo(q') == ToGo(q) && Left(q') < Left(q))
  }

  lemma EngineGoes(s: State, r: nat, id: u128)
    requires r in s.reqs && Early(s.reqs[r]) && Shape(s.reqs[r]) && Clear(s, r) && LockOk(s, r)
    requires s.logLock.Some? ==> s.logLock == s.bookLock
    requires Unnamed(s.reqs[r]) ==> !Has(s.x.orders, id)
    ensures EngineEnabled(s, r, EngineNext(s, r, id))
  {
  }

  lemma EngineCloser(s: State, r: nat, id: u128, e: EngineStep)
    requires EngineEnabled(s, r, e) && e == EngineNext(s, r, id) && Early(s.reqs[r])
    ensures Closer(s.reqs[r], EngineApply(s, r, e).reqs[r])
    ensures Unnamed(EngineApply(s, r, e).reqs[r]) ==> Unnamed(s.reqs[r]) && EngineApply(s, r, e).x == s.x
    ensures !e.Abort?
  {
  }

  /** Only an id that is given out becomes known. */
  lemma EngineIds(s: State, r: nat, id: u128, e: EngineStep, other: u128)
    requires EngineEnabled(s, r, e) && (e.MatchNow? ==> e.id == id)
    requires other != id && !Has(s.x.orders, other)
    ensures !Has(EngineApply(s, r, e).x.orders, other)
  {
    if e.MatchNow? {
      Exchange.ArrivalAppend(s.x.orders, s.reqs[r].ask.Placed(id, e.time), other);
    }
  }

  lemma ArchiveGoes(s: State, r: nat)
    requires r in s.reqs && !Early(s.reqs[r]) && !Final(s.reqs[r]) && Shape(s.reqs[r])
    requires Clear(s, r) && LockOk(s, r)
    ensures s.reqs[r].Create?
    ensures ArchiveEnabled(s, r, ArchiveNext(s.reqs[r]))
    ensures Closer(s.reqs[r], ArchiveApply(s, r, ArchiveNext(s.reqs[r])).reqs[r])
  {
  }

  lemma EngineClear(s: State, r: nat, e: EngineStep)
    requires EngineEnabled(s, r, e) && Early(s.reqs[r]) && Clear(s, r)
    ensures Clear(EngineApply(s, r, e), r)
  {
  }

  lemma ArchiveClear(s: State, r: nat, e: ArchiveStep)
    requires ArchiveEnabled(s, r, e) && Clear(s, r)
    ensures Clear(ArchiveApply(s, r, e), r) && !Early(ArchiveApply(s, r, e).reqs[r])
  {
  }

  ghost predicate OthersSame(s: State, s': State, r: nat) {
    s'.reqs.Keys == s.reqs.Keys && forall i :: i in s.reqs && i != r ==> s'.reqs[i] == s.reqs[i]
  }

  /** No id but this one has been given out. */
  ghost predicate OnlyUses(s: State, s': State, id: u128) {
    forall other: u128 :: other != id && !Has(s.x.orders, other) ==> !Has(s'.x.orders, other)
  }

  ghost predicate CanGo(s: State, r: nat, id: u128) {
    r in s.reqs && Clear(s, r) && (Unnamed(s.reqs[r]) ==> !Has(s.x.orders, id))
  }

  lemma EngineOnlyUses(s: State, r: nat, id: u128, e: EngineStep)
    requires EngineEnabled(s, r, e) && (e.MatchNow? ==> e.id == id)
    ensures OnlyUses(s, EngineApply(s, r, e), id)
  {
    forall other: u128 | other != id && !Has(s.x.orders, other)
      ensures !Has(EngineApply(s, r, e).x.orders, other)
    {
      EngineIds(s, r, id, e, other);
    }
  }

  /** What is known of a request wherever the run stands. */
  lemma Standing(es: seq<Event>, r: nat)
    requires r in After(es).reqs
    ensures LockOk(After(es), r) && Shape(After(es).reqs[r])
    ensures Locks(After(es)) && Shapes(After(es))
  {
    AlwaysSafe(es);
  }

  ghost predicate Nearer(s: State, s': State, r: nat, id: u128)
    requires CanGo(s, r, id)
  {
    CanGo(s', r, id) && Closer(s.reqs[r], s'.reqs[r]) && OthersSame(s, s', r) && OnlyUses(s, s', id)
  }

  lemma EngineProceeds(s: State, r: nat, id: u128) returns (e: EngineStep)
    requires CanGo(s, r, id) && Early(s.reqs[r]) && Locks(s) && Shapes(s)
    ensures EngineEnabled(s, r, e) && !e.Abort? && Nearer(s, EngineApply(s, r, e), r, id)
  {
    e := EngineNext(s, r, id);
    assert LockOk(s, r) && (s.logLock.Some? ==> LockOk(s, s.logLock.value));
    EngineGoes(s, r, id);
    EngineCloser(s, r, id, e);
    EngineClear(s, r, e);
    EngineFrame(s, r, e);
    EngineOnlyUses(s, r, id, e);
  }

  lemma StepOn(es0: seq<Event>, e: Event, r: nat, id: u128) returns (es: seq<Event>)
    requires CanGo(After(es0), r, id) && Enabled(After(es0), e) && Goes(e) && OfRequest(e, r)
    requires Nearer(After(es0), Apply(After(es0), e), r, id)
    ensures Onward(es0, es) && Continues(es0, es, r) && Nearer(After(es0), After(es), r, id)
  {
    es := More(es0, e);
  }

  lemma ArchiveProceeds(s: State, r: nat, id: u128) returns (e: ArchiveStep)
    requires CanGo(s, r, id) && !Early(s.reqs[r]) && !Final(s.reqs[r]) && LockOk(s, r) && Shape(s.reqs[r])
    ensures ArchiveEnabled(s, r, e) && !e.InsertFails? && Nearer(s, ArchiveApply(s, r, e), r, id)
  {
    ArchiveGoes(s, r);
    e := ArchiveNext(s.reqs[r]);
    ArchiveClear(s, r, e);
    ArchiveFrame(s, r, e);
  }

  /** A request that nobody stands in the way of can run to its end by itself: by steps
      of its own only, none of which fails or is abandoned. */
  lemma {:induction false} RunToEnd(es0: seq<Event>, r: nat, id: u128) returns (es: seq<Event>)
    requires CanGo(After(es0), r, id)
    ensures Onward(es0, es) && Continues(es0, es, r)
    ensures r in After(es).reqs && Final(After(es).reqs[r])
    ensures OthersSame(After(es0), After(es), r) && OnlyUses(After(es0), After(es), id)
    decreases ToGo(After(es0).reqs[r]), Left(After(es0).reqs[r])
  {
    if Final(After(es0).reqs[r]) {
      es := es0;
    } else {
      Standing(es0, r);
      var e: Event;
      if Early(After(es0).reqs[r]) {
        var step := EngineProceeds(After(es0), r, id);
        e := Event.Engine(r, step);
      } else {
        var step := ArchiveProceeds(After(es0), r, id);
        e := Event.Archive(r, step);
      }
      var es1 := StepOn(es0, e, r, id);
      es := RunToEnd(es1, r, id);
      OnwardOn(es0, es1, es);
      ContinuesOn(es0, es1, es, r);
    }
  }

  // -------------------------------------------------------------- all of them

  ghost predicate AllFinal(s: State) {
    forall r :: r in s.reqs ==> Final(s.reqs[r])
  }

  /** Every request not in `todo` is at its end. */
  ghost predicate OnlyUnder(s: State, todo: set<nat>) {
    forall r :: r in s.reqs && r !in todo ==> Final(s.reqs[r])
  }

  ghost predicate Unused(s: State, ids: seq<u128>) {
    NoDuplicates(ids) && forall id :: id in ids ==> !Has(s.x.orders, id)
  }

  /** There is always one that nobody stands in the way of: who holds the store needs
      nothing else, and who holds the books needs only the log, which is then free. */
  lemma SomeoneIsClear(s: State, todo: set<nat>) returns (r: nat)
    requires Locks(s) && Shapes(s) && OnlyUnder(s, todo) && !AllFinal(s)
    ensures r in todo && r in s.reqs && Clear(s, r)
  {
    if s.storeLock.Some? {
      r := s.storeLock.value;
    } else if s.bookLock.Some? {
      r := s.bookLock.value;
    } else {
      r :| r in s.reqs && !Final(s.reqs[r]);
    }
    assert LockOk(s, r) && (r in s.reqs ==> Shape(s.reqs[r]));
  }

  lemma IdsLeft(s: State, s': State, ids: seq<u128>)
    requires Unused(s, ids) && ids != [] && OnlyUses(s, s', ids[0])
    ensures Unused(s', ids[1..])
  {
    forall id | id in ids[1..] ensures !Has(s'.x.orders, id) {
      assert id in ids && id != ids[0];
    }
  }

  lemma {:induction false} AllRun(es0: seq<Event>, todo: set<nat>, ids: seq<u128>) returns (es: seq<Event>)
    requires OnlyUnder(After(es0), todo) && Unused(After(es0), ids) && |todo| <= |ids|
    ensures Onward(es0, es) && AllFinal(After(es))
    decreases |todo|
  {
    if AllFinal(After(es0)) {
      es := es0;
    } else {
      AlwaysSafe(es0);
      var r := SomeoneIsClear(After(es0), todo);
      assert ids[0] in ids;
      var es1 := RunToEnd(es0, r, ids[0]);
      IdsLeft(After(es0), After(es1), ids);
      es := AllRun(es1, todo - {r}, ids[1..]);
      OnwardOn(es0, es1, es);
    }
  }

  lemma NobodyHolds(s: State)
    requires Locks(s) && AllFinal(s)
    ensures s.bookLock.None? && s.logLock.None? && s.storeLock.None?
  {
    forall r: nat ensures s.bookLock != Some(r) && s.logLock != Some(r) && s.storeLock != Some(r) {
      assert LockOk(s, r);
    }
  }

  function UnderWay(s: State): set<nat> {
    set r | r in s.reqs && !Final(s.reqs[r])
  }

  /** From every reachable state, as long as there are unused ids for the requests under
      way, some continuation in which none is abandoned or fails brings all of them to
      their end and leaves every lock free. */
  lemma EveryRequestCanFinish(es0: seq<Event>, ids: seq<u128>) returns (es: seq<Event>)
    requires Unused(After(es0), ids)
    requires |UnderWay(After(es0))| <= |ids|
    ensures Onward(es0, es)
    ensures var s := After(es);
      && (forall r :: r in s.reqs ==> Final(s.reqs[r]))
      && s.bookLock.None? && s.logLock.None? && s.storeLock.None?
  {
    es := AllRun(es0, UnderWay(After(es0)), ids);
    AlwaysSafe(es);
    NobodyHolds(After(es));
  }
}
