/** What the trade channel carries: the trades of each completed request once, together
    and in match order, and nothing else but what the holder of the store has sent. */
module Broadcasts {
  import opened Types
  import opened Protocol
  import opened Locking
  import opened Accounts

  function TradesOf(s: State, r: nat): seq<Trade> {
    if r in s.reqs && s.reqs[r].Create? then s.reqs[r].trades else []
  }

  /** The trades of these requests, one request after the other. */
  function Batches(s: State, rs: seq<nat>): seq<Trade> {
    if rs == [] then [] else Batches(s, rs[..|rs| - 1]) + TradesOf(s, rs[|rs| - 1])
  }

  /** What the holder of the store has broadcast so far. */
  ghost function SentNow(s: State): seq<Trade> {
    if s.storeLock.Some? then SentBy(s, s.storeLock.value) else []
  }

  ghost function SentBy(s: State, r: nat): seq<Trade> {
    if Creating(s, r, Sending) && s.reqs[r].sent <= |s.reqs[r].trades| then s.reqs[r].trades[..s.reqs[r].sent] else []
  }

  /** The channel carries the batch of every completed create request, each once and in
      order of completion, then what the holder of the store has sent of its own. */
  ghost predicate Batched(s: State) {
    && s.feed == Batches(s, s.finished) + SentNow(s)
    && NoDuplicates(s.finished)
    && forall r :: r in s.finished <==> Creating(s, r, Done)
  }

  /** Exactly the first `sent` trades of a request have been broadcast. */
  ghost predicate SentOk(feed: seq<Trade>, q: Request) {
    q.Create? && forall i :: 0 <= i < |q.trades| ==> (i < q.sent <==> q.trades[i] in feed)
  }

  /** No trade is broadcast twice, none before it is stored, and none that its request
      has not sent. */
  ghost predicate SentOnce(s: State) {
    && NoDuplicates(s.feed)
    && (forall t :: t in s.feed ==> t in s.persisted)
    && (forall r :: r in s.reqs && HasMatched(s.reqs[r]) ==> SentOk(s.feed, s.reqs[r]))
  }

  ghost predicate Broadcasting(s: State) {
    Batched(s) && SentOnce(s)
  }

  // ------------------------------------------------------------------- whole batches

  lemma {:induction false} SameBatches(s: State, s': State, rs: seq<nat>)
    requires forall r :: r in rs ==> TradesOf(s', r) == TradesOf(s, r)
    ensures Batches(s', rs) == Batches(s, rs)
  {
    if rs != [] {
      assert rs[|rs| - 1] in rs && forall r :: r in rs[..|rs| - 1] ==> r in rs;
      SameBatches(s, s', rs[..|rs| - 1]);
    }
  }

  lemma SendNext(s: State, r: nat)
    requires ArchiveEnabled(s, r, Send) && s.storeLock == Some(r) && Shape(s.reqs[r])
    ensures var s' := ArchiveApply(s, r, Send);
      && s'.feed == s.feed + [s.reqs[r].trades[s.reqs[r].sent]]
      && SentNow(s') == SentNow(s) + [s.reqs[r].trades[s.reqs[r].sent]]
      && s'.finished == s.finished
      && (forall i :: TradesOf(s', i) == TradesOf(s, i))
      && (forall i :: Creating(s', i, Done) <==> Creating(s, i, Done))
  {
    var q := s.reqs[r];
    assert q.trades[..q.sent + 1] == q.trades[..q.sent] + [q.trades[q.sent]];
  }

  lemma SendBatched(s: State, r: nat)
    requires ArchiveEnabled(s, r, Send) && s.storeLock == Some(r) && Shape(s.reqs[r]) && Batched(s)
    ensures Batched(ArchiveApply(s, r, Send))
  {
    SendNext(s, r);
    SameBatches(s, ArchiveApply(s, r, Send), s.finished);
  }

  lemma NotifyLast(s: State, r: nat)
    requires ArchiveEnabled(s, r, Notify) && s.storeLock == Some(r) && Shape(s.reqs[r])
    ensures var s' := ArchiveApply(s, r, Notify);
      && s'.feed == s.feed && SentNow(s) == TradesOf(s, r) && SentNow(s') == []
      && s'.finished == s.finished + [r]
      && (forall i :: TradesOf(s', i) == TradesOf(s, i))
      && !Creating(s, r, Done)
      && (forall i :: Creating(s', i, Done) <==> Creating(s, i, Done) || i == r)
  {
    var ts := s.reqs[r].trades;
    assert ts[..|ts|] == ts;
  }

  lemma BatchesAppend(s: State, rs: seq<nat>, r: nat)
    ensures Batches(s, rs + [r]) == Batches(s, rs) + TradesOf(s, r)
  {
    assert (rs + [r])[..|rs|] == rs;
  }

  lemma NotifyBatched(s: State, r: nat)
    requires ArchiveEnabled(s, r, Notify) && s.storeLock == Some(r) && Shape(s.reqs[r]) && Batched(s)
    ensures Batched(ArchiveApply(s, r, Notify))
  {
    NotifyLast(s, r);
    SameBatches(s, ArchiveApply(s, r, Notify), s.finished);
    BatchesAppend(ArchiveApply(s, r, Notify), s.finished, r);
  }

  /** Steps that send nothing and complete nothing. */
  lemma BatchedFrame(s: State, s': State)
    requires Batched(s) && s'.feed == s.feed && s'.finished == s.finished && SentNow(s') == SentNow(s)
    requires forall r :: Creating(s', r, Done) <==> Creating(s, r, Done)
    requires forall r :: Creating(s, r, Done) ==> TradesOf(s', r) == TradesOf(s, r)
    ensures Batched(s')
  {
    SameBatches(s, s', s.finished);
  }

  lemma QuietArchive(s: State, r: nat, e: ArchiveStep)
    requires ArchiveEnabled(s, r, e) && !e.Send? && !e.Notify? && Shape(s.reqs[r]) && StoreLockOk(s, r)
    ensures var s' := ArchiveApply(s, r, e);
      && s'.feed == s.feed && s'.finished == s.finished && SentNow(s') == SentNow(s)
      && !Creating(s, r, Done) && !Creating(s', r, Done)
      && s'.reqs[r].sent == s.reqs[r].sent && s.persisted <= s'.persisted
  {
  }

  lemma EngineNotDone(s: State, r: nat, e: EngineStep)
    requires EngineEnabled(s, r, e)
    ensures !Creating(s, r, Done) && !Creating(EngineApply(s, r, e), r, Done)
  {
  }

  lemma QuietBatched(s: State, r: nat, e: ArchiveStep)
    requires ArchiveEnabled(s, r, e) && !e.Send? && !e.Notify? && Shape(s.reqs[r]) && StoreLockOk(s, r) && Batched(s)
    ensures Batched(ArchiveApply(s, r, e))
  {
    ArchiveFrame(s, r, e);
    QuietArchive(s, r, e);
    BatchedFrame(s, ArchiveApply(s, r, e));
  }

  lemma ArchiveBatched(s: State, r: nat, e: ArchiveStep)
    requires ArchiveEnabled(s, r, e) && Shape(s.reqs[r]) && StoreLockOk(s, r) && Batched(s)
    ensures Batched(ArchiveApply(s, r, e))
  {
    if e.Send? {
      SendBatched(s, r);
    } else if e.Notify? {
      NotifyBatched(s, r);
    } else {
      QuietBatched(s, r, e);
    }
  }

  /** The holder of the store is not the one that moves, so it has sent what it had. */
  lemma HolderRests(s: State, s': State)
    requires s'.storeLock == s.storeLock
    requires s.storeLock.Some? ==> s.storeLock.value in s.reqs && s.storeLock.value in s'.reqs
    requires s.storeLock.Some? ==> s'.reqs[s.storeLock.value] == s.reqs[s.storeLock.value]
    ensures SentNow(s') == SentNow(s)
  {
  }

  lemma EngineBatched(s: State, r: nat, e: EngineStep)
    requires EngineEnabled(s, r, e) && Batched(s)
    requires s.storeLock.Some? ==> StoreLockOk(s, s.storeLock.value)
    ensures Batched(EngineApply(s, r, e))
  {
    EngineFrame(s, r, e);
    EngineNotDone(s, r, e);
    EngineOffStore(s, r, e);
    HolderRests(s, EngineApply(s, r, e));
    BatchedFrame(s, EngineApply(s, r, e));
  }

  lemma BystanderBatched(s: State, s': State)
    requires Bystander(s, s') && Batched(s)
    requires s.storeLock.Some? ==> StoreLockOk(s, s.storeLock.value)
    ensures Batched(s')
  {
    HolderRests(s, s');
    BatchedFrame(s, s');
  }

  lemma StepKeepsBatched(s: State, e: Event)
    requires Enabled(s, e) && Shapes(s) && Locks(s) && Batched(s)
    ensures Batched(Apply(s, e))
  {
    assert s.storeLock.Some? ==> LockOk(s, s.storeLock.value);
    if e.Archive? {
      assert LockOk(s, e.r);
      ArchiveBatched(s, e.r, e.archive);
    } else if e.Engine? {
      EngineBatched(s, e.r, e.engine);
    } else {
      OtherFrame(s, e);
      BystanderBatched(s, Apply(s, e));
    }
  }

  // --------------------------------------------------------------------- each once

  lemma SendKeepsSent(s: State, r: nat, x: nat)
    requires ArchiveEnabled(s, r, Send) && Owned(s) && x in s.reqs && HasMatched(s.reqs[x])
    requires SentOk(s.feed, s.reqs[x])
    ensures SentOk(ArchiveApply(s, r, Send).feed, ArchiveApply(s, r, Send).reqs[x])
  {
    var q, p := s.reqs[r], s.reqs[x];
    var t := q.trades[q.sent];
    assert OwnsTrades(s.x, q) && OwnsTrades(s.x, p);
    assert t in q.trades;
    forall i | 0 <= i < |p.trades| ensures p.trades[i] == t ==> x == r && i == q.sent {
      assert p.trades[i] in p.trades;
    }
  }

  lemma SendOnce(s: State, r: nat)
    requires ArchiveEnabled(s, r, Send) && Shape(s.reqs[r]) && SavedOk(s.persisted, s.reqs[r])
    requires Owned(s) && SentOnce(s)
    ensures SentOnce(ArchiveApply(s, r, Send))
  {
    var s', q := ArchiveApply(s, r, Send), s.reqs[r];
    assert SentOk(s.feed, q);
    assert q.trades[q.sent] in s.persisted && q.trades[q.sent] !in s.feed;
    forall x | x in s'.reqs && HasMatched(s'.reqs[x]) ensures SentOk(s'.feed, s'.reqs[x]) {
      assert HasMatched(s.reqs[x]) && SentOk(s.feed, s.reqs[x]);
      SendKeepsSent(s, r, x);
    }
  }

  ghost predicate SameSent(q: Request, q': Request) {
    q.Create? && q'.Create? && q'.trades == q.trades && q'.sent == q.sent
  }

  lemma SentFrame(s: State, s': State)
    requires SentOnce(s) && s'.feed == s.feed && s.persisted <= s'.persisted
    requires forall r :: r in s'.reqs && HasMatched(s'.reqs[r]) ==>
      (r in s.reqs && HasMatched(s.reqs[r]) && SameSent(s.reqs[r], s'.reqs[r])) || SentOk(s.feed, s'.reqs[r])
    ensures SentOnce(s')
  {
    forall r | r in s'.reqs && HasMatched(s'.reqs[r]) ensures SentOk(s'.feed, s'.reqs[r]) {
      if r in s.reqs && HasMatched(s.reqs[r]) && SameSent(s.reqs[r], s'.reqs[r]) {
        assert SentOk(s.feed, s.reqs[r]);
      }
    }
  }

  lemma QuietSendsOnce(s: State, r: nat, e: ArchiveStep)
    requires ArchiveEnabled(s, r, e) && !e.Send? && Shape(s.reqs[r]) && StoreLockOk(s, r) && SentOnce(s)
    ensures SentOnce(ArchiveApply(s, r, e))
  {
    ArchiveFrame(s, r, e);
    if !e.Notify? {
      QuietArchive(s, r, e);
    }
    SentFrame(s, ArchiveApply(s, r, e));
  }

  lemma ArchiveSendsOnce(s: State, r: nat, e: ArchiveStep)
    requires ArchiveEnabled(s, r, e) && Shape(s.reqs[r]) && StoreLockOk(s, r)
    requires Owned(s) && SavedOk(s.persisted, s.reqs[r]) && SentOnce(s)
    ensures SentOnce(ArchiveApply(s, r, e))
  {
    if e.Send? {
      SendOnce(s, r);
    } else {
      QuietSendsOnce(s, r, e);
    }
  }

  /** A new trade is not in the store, so it was not broadcast either. */
  lemma MatchIsUnsent(s: State, r: nat, id: u128, time: u128, clock: Clock)
    requires EngineEnabled(s, r, MatchNow(id, time, clock)) && Sequential(s) && Shape(s.reqs[r])
    requires Stored(s) && SentOnce(s)
    ensures SentOk(s.feed, EngineApply(s, r, MatchNow(id, time, clock)).reqs[r])
  {
    var q := EngineApply(s, r, MatchNow(id, time, clock)).reqs[r];
    MatchIsUnsaved(s, r, id, time, clock);
    assert q.saved == q.sent == 0;
  }

  lemma EngineSendsNothing(s: State, r: nat, e: EngineStep)
    requires EngineEnabled(s, r, e) && Shapes(s) && Sequential(s) && Stored(s) && SentOnce(s)
    ensures SentOnce(EngineApply(s, r, e))
  {
    EngineFrame(s, r, e);
    assert Shape(s.reqs[r]);
    if e.MatchNow? {
      MatchIsUnsent(s, r, e.id, e.time, e.clock);
    } else {
      EngineQuiet(s, r, e);
    }
    SentFrame(s, EngineApply(s, r, e));
  }

  lemma StepKeepsSentOnce(s: State, e: Event)
    requires Enabled(s, e) && Shapes(s) && Locks(s) && Sequential(s) && Owned(s) && Stored(s) && SentOnce(s)
    ensures SentOnce(Apply(s, e))
  {
    if e.Archive? {
      ArchiveFrame(s, e.r, e.archive);
      assert LockOk(s, e.r) && Shape(s.reqs[e.r]) && SavedOk(s.persisted, s.reqs[e.r]);
      ArchiveSendsOnce(s, e.r, e.archive);
    } else if e.Engine? {
      EngineSendsNothing(s, e.r, e.engine);
    } else {
      OtherFrame(s, e);
      SentFrame(s, Apply(s, e));
    }
  }
}
