/** Which request holds which lock at each stage, and what each kind of step leaves
    alone. */
module Locking {
  import opened Types
  import Exchange
  import opened Protocol

  predicate HoldsBooks(q: Request) {
    q.stage in {HasBooks, HasBoth, Looking, Unlogged, Found}
  }

  predicate HoldsLog(q: Request) {
    q.stage in {HasBoth, Unlogged} || (q.stage == Looking && q.Create?)
  }

  predicate HoldsStore(q: Request) {
    q.stage == Storing || q.stage == Sending
  }

  /** Has run the matching engine. */
  predicate HasMatched(q: Request) {
    && q.Create?
    && (q.stage == Unlogged || q.stage == Logged || q.stage == Storing || q.stage == Sending || q.stage == Done
        || q.stage == Failed || q.stage == Aborted)
  }

  /** What the counters of a request can be at each stage. */
  ghost predicate Shape(q: Request) {
    match q
    case Delete(_, _, stage, _) =>
      stage in {Asked, HasBooks, Looking, Found, Done, NotFound, Refused, GivenUp}
    case Create(_, stage, _, _, trades, saved, sent) =>
      && stage != Found && stage != NotFound
      && (stage != Refused ==> q.ask.quantity > 0)
      && (stage == HasBoth || stage == Looking ==> q.ask.pair in Exchange.START.books)
      && saved <= |trades| && sent <= saved
      && (!HasMatched(q) ==> trades == [])
      && (stage == Unlogged || stage == Logged || stage == Aborted ==> saved == 0)
      && (stage == Storing || stage == Failed ==> sent == 0)
      && (stage == Sending || stage == Done ==> saved == |trades|)
      && (stage == Done ==> sent == |trades|)
  }

  ghost predicate Shapes(s: State) {
    forall r :: r in s.reqs ==> Shape(s.reqs[r])
  }

  /** Request `r` holds exactly the locks its stage says. */
  ghost predicate BookLockOk(s: State, r: nat) {
    s.bookLock == Some(r) <==> r in s.reqs && HoldsBooks(s.reqs[r])
  }

  ghost predicate LogLockOk(s: State, r: nat) {
    s.logLock == Some(r) <==> r in s.reqs && HoldsLog(s.reqs[r])
  }

  ghost predicate StoreLockOk(s: State, r: nat) {
    s.storeLock == Some(r) <==> r in s.reqs && HoldsStore(s.reqs[r])
  }

  ghost predicate LockOk(s: State, r: nat) {
    BookLockOk(s, r) && LogLockOk(s, r) && StoreLockOk(s, r)
  }

  ghost predicate Locks(s: State) {
    forall r: nat :: LockOk(s, r)
  }

  /** A lock is taken when it is free, and let go by the request that holds it. */
  ghost predicate Handed(lock: Option<nat>, lock': Option<nat>, r: nat) {
    lock' == lock || (lock.None? && lock' == Some(r)) || (lock == Some(r) && lock'.None?)
  }

  lemma EngineBookLock(s: State, r: nat, e: EngineStep)
    requires EngineEnabled(s, r, e) && BookLockOk(s, r)
    ensures var s' := EngineApply(s, r, e);
      BookLockOk(s', r) && Handed(s.bookLock, s'.bookLock, r)
  {
  }

  lemma EngineLogLock(s: State, r: nat, e: EngineStep)
    requires EngineEnabled(s, r, e) && LogLockOk(s, r)
    ensures var s' := EngineApply(s, r, e);
      LogLockOk(s', r) && Handed(s.logLock, s'.logLock, r)
  {
  }

  lemma EngineOffStore(s: State, r: nat, e: EngineStep)
    requires EngineEnabled(s, r, e)
    ensures !HoldsStore(s.reqs[r]) && !HoldsStore(EngineApply(s, r, e).reqs[r])
  {
  }

  lemma EngineLocks(s: State, r: nat, e: EngineStep, x: nat)
    requires EngineEnabled(s, r, e) && LockOk(s, r) && LockOk(s, x)
    ensures LockOk(EngineApply(s, r, e), x)
  {
    EngineFrame(s, r, e);
    EngineBookLock(s, r, e);
    EngineLogLock(s, r, e);
    EngineOffStore(s, r, e);
  }

  lemma ArchiveLocks(s: State, r: nat, e: ArchiveStep, x: nat)
    requires ArchiveEnabled(s, r, e) && LockOk(s, x) && LockOk(s, r)
    ensures LockOk(ArchiveApply(s, r, e), x)
  {
  }

  lemma StepKeepsLocks(s: State, e: Event)
    requires Enabled(s, e) && Locks(s)
    ensures Locks(Apply(s, e))
  {
    forall x: nat ensures LockOk(Apply(s, e), x) {
      assert LockOk(s, x);
      match e
      case Engine(r, step) =>
        assert LockOk(s, r);
        EngineLocks(s, r, step, x);
      case Archive(r, step) =>
        assert LockOk(s, r);
        ArchiveLocks(s, r, step, x);
      case Post(_, _) =>
      case Remove(_, _, _) =>
      case Join(_, _) =>
      case Socket(_, _) =>
    }
  }

  lemma EngineKeepsShapes(s: State, r: nat, e: EngineStep)
    requires EngineEnabled(s, r, e) && Shapes(s) && s.x.books.Keys == Exchange.START.books.Keys
    ensures Shapes(EngineApply(s, r, e))
  {
    EngineFrame(s, r, e);
    EngineShape(s, r, e);
  }

  lemma ArchiveKeepsShapes(s: State, r: nat, e: ArchiveStep)
    requires ArchiveEnabled(s, r, e) && Shapes(s)
    ensures Shapes(ArchiveApply(s, r, e))
  {
    ArchiveFrame(s, r, e);
    ArchiveShape(s, r, e);
  }

  lemma StepKeepsShapes(s: State, e: Event)
    requires Enabled(s, e) && Shapes(s) && s.x.books.Keys == Exchange.START.books.Keys
    ensures Shapes(Apply(s, e))
  {
    match e
    case Engine(r, step) => EngineKeepsShapes(s, r, step);
    case Archive(r, step) => ArchiveKeepsShapes(s, r, step);
    case Post(_, _) =>
    case Remove(_, _, _) =>
    case Join(_, _) =>
    case Socket(_, _) => OtherFrame(s, e);
  }

  lemma CreateShape(s: State, r: nat, e: EngineStep)
    requires EngineEnabled(s, r, e) && Shape(s.reqs[r]) && s.x.books.Keys == Exchange.START.books.Keys
    requires s.reqs[r].Create?
    ensures Shape(EngineApply(s, r, e).reqs[r])
  {
    match e
    case LockBooks =>
    case Refuse =>
    case LockLog =>
    case ReadBook =>
    case MatchNow(_, _, _) =>
    case LogNow =>
    case Abort =>
  }

  lemma DeleteShape(s: State, r: nat, e: EngineStep)
    requires EngineEnabled(s, r, e) && Shape(s.reqs[r]) && s.reqs[r].Delete?
    ensures Shape(EngineApply(s, r, e).reqs[r])
  {
  }

  lemma EngineShape(s: State, r: nat, e: EngineStep)
    requires EngineEnabled(s, r, e) && Shape(s.reqs[r]) && s.x.books.Keys == Exchange.START.books.Keys
    ensures Shape(EngineApply(s, r, e).reqs[r])
  {
    if s.reqs[r].Create? {
      CreateShape(s, r, e);
    } else {
      DeleteShape(s, r, e);
    }
  }

  lemma ArchiveShape(s: State, r: nat, e: ArchiveStep)
    requires ArchiveEnabled(s, r, e) && Shape(s.reqs[r])
    ensures Shape(ArchiveApply(s, r, e).reqs[r])
  {
  }

  // ------------------------------------------------------------------ the frames

  /** Steps under the store's lock leave the engine's part of the state alone. */
  lemma ArchiveFrame(s: State, r: nat, e: ArchiveStep)
    requires ArchiveEnabled(s, r, e)
    ensures var s' := ArchiveApply(s, r, e);
      && s'.x == s.x && s'.log == s.log && s'.bookLock == s.bookLock && s'.logLock == s.logLock
      && s'.history == s.history && s'.clients == s.clients && s'.reqs.Keys == s.reqs.Keys
      && (forall i :: i in s.reqs && i != r ==> s'.reqs[i] == s.reqs[i])
      && HasMatched(s.reqs[r]) && HasMatched(s'.reqs[r])
      && s'.reqs[r].ask == s.reqs[r].ask && s'.reqs[r].id == s.reqs[r].id && s'.reqs[r].trades == s.reqs[r].trades
      && s'.reqs[r].stage != Unlogged
  {
  }

  lemma EngineOthers(s: State, r: nat, e: EngineStep)
    requires EngineEnabled(s, r, e)
    ensures var s' := EngineApply(s, r, e);
      && s'.reqs.Keys == s.reqs.Keys
      && forall i :: i in s.reqs && i != r ==> s'.reqs[i] == s.reqs[i]
  {
    match e
    case LockBooks =>
    case Refuse =>
    case LockLog =>
    case ReadBook =>
    case MatchNow(_, _, _) =>
    case LogNow =>
    case DeleteNow =>
    case NotifyDelete =>
    case Abort =>
  }

  lemma EngineFields(s: State, r: nat, e: EngineStep)
    requires EngineEnabled(s, r, e)
    ensures var s' := EngineApply(s, r, e);
      && s'.db == s.db && s'.feed == s.feed && s'.storeLock == s.storeLock && s'.persisted == s.persisted
      && s'.finished == s.finished && s'.clients == s.clients
  {
    match e
    case LockBooks =>
    case Refuse =>
    case LockLog =>
    case ReadBook =>
    case MatchNow(_, _, _) =>
    case LogNow =>
    case DeleteNow =>
    case NotifyDelete =>
    case Abort =>
  }

  /** Steps under the engine's locks leave the store's part of the state alone. */
  lemma EngineFrame(s: State, r: nat, e: EngineStep)
    requires EngineEnabled(s, r, e)
    ensures var s' := EngineApply(s, r, e);
      && s'.db == s.db && s'.feed == s.feed && s'.storeLock == s.storeLock && s'.persisted == s.persisted
      && s'.finished == s.finished && s'.clients == s.clients && s'.reqs.Keys == s.reqs.Keys
      && (forall i :: i in s.reqs && i != r ==> s'.reqs[i] == s.reqs[i])
  {
    EngineOthers(s, r, e);
    EngineFields(s, r, e);
  }

  /** Arrivals and the clients' steps touch neither the books, the log, the store nor
      the channels, and no request that is under way. */
  ghost predicate Bystander(s: State, s': State) {
    && s'.x == s.x && s'.log == s.log && s'.history == s.history
    && s'.db == s.db && s'.persisted == s.persisted
    && s'.feed == s.feed && s'.notes == s.notes && s'.finished == s.finished && s'.unannounced == s.unannounced
    && s'.bookLock == s.bookLock && s'.logLock == s.logLock && s'.storeLock == s.storeLock
    && (forall r :: r in s.reqs ==> r in s'.reqs && s'.reqs[r] == s.reqs[r])
    && (forall r :: r in s'.reqs && r !in s.reqs ==> s'.reqs[r].stage == Asked || s'.reqs[r].stage == Refused)
  }

  lemma OtherFrame(s: State, e: Event)
    requires Enabled(s, e) && !e.Engine? && !e.Archive?
    ensures Bystander(s, Apply(s, e))
  {
    match e
    case Post(_, _) =>
    case Remove(_, _, _) =>
    case Join(_, _) =>
    case Socket(c, step) => SocketFrame(s, c, step);
  }

  lemma SocketFrame(s: State, c: nat, e: SocketStep)
    requires SocketEnabled(s, c, e)
    ensures SocketApply(s, c, e) == s.(clients := SocketApply(s, c, e).clients)
  {
  }

  /** The same match, with as much of it saved and sent. */
  ghost predicate SameMatch(q: Request, q': Request) {
    && q.Create? && q'.Create?
    && q'.ask == q.ask && q'.id == q.id && q'.trades == q.trades && q'.saved == q.saved && q'.sent == q.sent
  }

  lemma EngineKeepsBooks(s: State, r: nat, e: EngineStep)
    requires EngineEnabled(s, r, e) && !e.MatchNow? && !e.DeleteNow?
    ensures EngineApply(s, r, e).x == s.x && EngineApply(s, r, e).history == s.history
  {
  }

  lemma EngineKeepsMatch(s: State, r: nat, e: EngineStep)
    requires EngineEnabled(s, r, e) && !e.MatchNow? && Shape(s.reqs[r])
    ensures var q, q' := s.reqs[r], EngineApply(s, r, e).reqs[r];
      && (HasMatched(q) <==> HasMatched(q')) && (HasMatched(q) ==> SameMatch(q, q'))
      && PairOf(q') == PairOf(q)
  {
    match e
    case LockBooks =>
    case Refuse =>
    case LockLog =>
    case ReadBook =>
    case MatchNow(_, _, _) =>
    case LogNow =>
    case DeleteNow =>
    case NotifyDelete =>
    case Abort =>
  }

  /** Only matching and deleting change the books; every other step of the engine
      keeps what a request has matched. */
  lemma EngineQuiet(s: State, r: nat, e: EngineStep)
    requires EngineEnabled(s, r, e) && !e.MatchNow? && Shape(s.reqs[r])
    ensures var s' := EngineApply(s, r, e);
      && (!e.DeleteNow? ==> s'.x == s.x && s'.history == s.history)
      && (HasMatched(s.reqs[r]) <==> HasMatched(s'.reqs[r]))
      && (HasMatched(s.reqs[r]) ==> SameMatch(s.reqs[r], s'.reqs[r]))
      && PairOf(s'.reqs[r]) == PairOf(s.reqs[r])
  {
    EngineKeepsMatch(s, r, e);
    if !e.DeleteNow? {
      EngineKeepsBooks(s, r, e);
    }
  }
}
