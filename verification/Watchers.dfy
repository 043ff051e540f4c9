/** What the websocket clients have been shown. */
module Watchers {
  import opened Types
  import opened Keys
  import opened Protocol
  import opened Locking

  /** The request has changed this market's book, and its notification is still to
      come or, if it failed or was abandoned, will never come. */
  ghost predicate Owes(q: Request, p: Pair) {
    && PairOf(q) == p
    && ((HasMatched(q) && q.stage != Done) || q.stage == Found)
  }

  ghost predicate Owing(s: State, p: Pair) {
    exists r :: r in s.reqs && Owes(s.reqs[r], p)
  }

  ghost predicate Unread(notes: seq<Pair>, from: nat, p: Pair) {
    exists i :: from <= i < |notes| && notes[i] == p
  }

  function OfSymbol(ts: seq<Trade>, symbol: Bytes): seq<Trade> {
    if ts == [] then [] else
      var rest := OfSymbol(ts[..|ts| - 1], symbol);
      if ts[|ts| - 1].symbol == symbol then rest + [ts[|ts| - 1]] else rest
  }

  /** A client that shows an outdated book will be told at the next announcement of
      its market, or has the news unread; the trades forwarded are its market's, in
      channel order. */
  ghost predicate ClientOk(s: State, k: Client) {
    && k.next <= |s.notes| && k.tradeFrom <= k.tradeNext <= |s.feed|
    && k.frames == OfSymbol(s.feed[k.tradeFrom..k.tradeNext], k.pair.Code())
    && (k.phase == Idle ==> k.shown == BookOf(s, k.pair) || Unread(s.notes, k.next, k.pair) || k.pair in s.unannounced)
  }

  ghost predicate AllClientsOk(s: State) {
    forall c :: c in s.clients ==> ClientOk(s, s.clients[c])
  }

  ghost predicate Debts(s: State) {
    forall p :: p in s.unannounced ==> Owing(s, p)
  }

  ghost predicate Clients(s: State) {
    AllClientsOk(s) && Debts(s)
  }

  lemma TakeKeepsClient(s: State, c: nat)
    requires SocketEnabled(s, c, Take) && ClientOk(s, s.clients[c])
    ensures ClientOk(s, SocketApply(s, c, Take).clients[c])
  {
    var k := s.clients[c];
    if s.notes[k.next] != k.pair && Unread(s.notes, k.next, k.pair) {
      var i :| k.next <= i < |s.notes| && s.notes[i] == k.pair;
      assert k.next + 1 <= i;
    }
  }

  lemma ForwardKeepsClient(s: State, c: nat)
    requires SocketEnabled(s, c, Forward) && ClientOk(s, s.clients[c])
    ensures ClientOk(s, SocketApply(s, c, Forward).clients[c])
  {
    var k := s.clients[c];
    var ts := s.feed[k.tradeFrom..k.tradeNext + 1];
    assert ts[..|ts| - 1] == s.feed[k.tradeFrom..k.tradeNext];
  }

  lemma SocketKeepsClient(s: State, c: nat, e: SocketStep)
    requires SocketEnabled(s, c, e) && ClientOk(s, s.clients[c])
    ensures ClientOk(s, SocketApply(s, c, e).clients[c])
  {
    match e
    case Open =>
    case FirstSnapshot =>
    case Refresh =>
    case Take => TakeKeepsClient(s, c);
    case Forward => ForwardKeepsClient(s, c);
  }

  /** A step of a request keeps every promise to the clients: a market that changes
      is unannounced until a notification about it is sent. */
  ghost predicate Keeps(s: State, s': State, p: Pair) {
    && s.notes <= s'.notes && s.feed <= s'.feed
    && (BookOf(s', p) == BookOf(s, p) || p in s'.unannounced)
    && (p in s.unannounced ==> p in s'.unannounced || Unread(s'.notes, |s.notes|, p))
  }

  lemma KeepsClient(s: State, s': State, k: Client)
    requires ClientOk(s, k) && Keeps(s, s', k.pair)
    ensures ClientOk(s', k)
  {
    assert s'.feed[k.tradeFrom..k.tradeNext] == s.feed[k.tradeFrom..k.tradeNext];
    if Unread(s.notes, k.next, k.pair) {
      var i :| k.next <= i < |s.notes| && s.notes[i] == k.pair;
      assert s'.notes[i] == k.pair;
    }
    if Unread(s'.notes, |s.notes|, k.pair) {
      var i :| |s.notes| <= i < |s'.notes| && s'.notes[i] == k.pair;
      assert k.next <= i;
    }
  }

  lemma ArchiveKeeps(s: State, r: nat, e: ArchiveStep, p: Pair)
    requires ArchiveEnabled(s, r, e)
    ensures Keeps(s, ArchiveApply(s, r, e), p)
  {
    var s' := ArchiveApply(s, r, e);
    match e
    case LockStore =>
    case Insert =>
    case InsertFails =>
    case StartSending =>
    case Send =>
    case Notify => assert s'.notes[|s.notes|] == s.reqs[r].ask.pair;
  }

  lemma EngineKeeps(s: State, r: nat, e: EngineStep, p: Pair)
    requires EngineEnabled(s, r, e)
    ensures Keeps(s, EngineApply(s, r, e), p)
  {
    var s' := EngineApply(s, r, e);
    match e
    case LockBooks =>
    case Refuse =>
    case LockLog =>
    case ReadBook =>
    case MatchNow(_, _, _) =>
    case LogNow =>
    case DeleteNow =>
    case NotifyDelete => assert s'.notes[|s.notes|] == s.reqs[r].pair;
    case Abort =>
  }

  lemma StepKeeps(s: State, e: Event, p: Pair)
    requires Enabled(s, e)
    ensures Keeps(s, Apply(s, e), p)
  {
    if e.Engine? {
      EngineKeeps(s, e.r, e.engine, p);
    } else if e.Archive? {
      ArchiveKeeps(s, e.r, e.archive, p);
    } else {
      OtherFrame(s, e);
    }
  }

  // -------------------------------------------------- who still has to announce

  /** A market is unannounced only while some request owes it a notification. */
  lemma OwingOthers(s: State, s': State, r: nat)
    requires Debts(s) && r in s.reqs && s'.reqs.Keys == s.reqs.Keys
    requires forall i :: i in s.reqs && i != r ==> s'.reqs[i] == s.reqs[i]
    requires forall p :: p in s'.unannounced && (p !in s.unannounced || Owes(s.reqs[r], p)) ==> Owes(s'.reqs[r], p)
    ensures Debts(s')
  {
    forall p | p in s'.unannounced ensures Owing(s', p) {
      if p in s.unannounced && !Owes(s.reqs[r], p) {
        var i :| i in s.reqs && Owes(s.reqs[i], p);
        assert Owes(s'.reqs[i], p);
      } else {
        assert Owes(s'.reqs[r], p);
      }
    }
  }

  lemma ArchiveDebts(s: State, r: nat, e: ArchiveStep)
    requires ArchiveEnabled(s, r, e)
    ensures var s' := ArchiveApply(s, r, e);
      forall p :: p in s'.unannounced && (p !in s.unannounced || Owes(s.reqs[r], p)) ==> Owes(s'.reqs[r], p)
  {
  }

  lemma EngineDebts(s: State, r: nat, e: EngineStep)
    requires EngineEnabled(s, r, e) && Shape(s.reqs[r])
    ensures var s' := EngineApply(s, r, e);
      forall p :: p in s'.unannounced && (p !in s.unannounced || Owes(s.reqs[r], p)) ==> Owes(s'.reqs[r], p)
  {
  }

  lemma StepKeepsDebts(s: State, e: Event)
    requires Enabled(s, e) && Shapes(s) && Debts(s)
    ensures Debts(Apply(s, e))
  {
    var s' := Apply(s, e);
    match e
    case Engine(r, step) =>
      EngineFrame(s, r, step);
      EngineDebts(s, r, step);
      OwingOthers(s, s', r);
    case Archive(r, step) =>
      ArchiveFrame(s, r, step);
      ArchiveDebts(s, r, step);
      OwingOthers(s, s', r);
    case _ =>
      OtherFrame(s, e);
      BystanderDebts(s, s');
  }

  lemma BystanderDebts(s: State, s': State)
    requires Bystander(s, s') && Debts(s)
    ensures Debts(s')
  {
    forall p | p in s'.unannounced ensures Owing(s', p) {
      var r :| r in s.reqs && Owes(s.reqs[r], p);
      assert Owes(s'.reqs[r], p);
    }
  }

  // ------------------------------------------------------------------ the clients

  /** Requests do not touch clients, and a client's own step leaves it in order. */
  lemma StepClient(s: State, e: Event, c: nat)
    requires Enabled(s, e) && AllClientsOk(s) && c in Apply(s, e).clients
    ensures ClientOk(s, Apply(s, e).clients[c])
  {
    assert c in s.clients ==> ClientOk(s, s.clients[c]);
    match e
    case Engine(r, step) => EngineFrame(s, r, step);
    case Archive(r, step) => ArchiveFrame(s, r, step);
    case Post(_, _) =>
    case Remove(_, _, _) =>
    case Join(i, p) =>
    case Socket(i, step) =>
      if c == i {
        SocketKeepsClient(s, i, step);
      } else {
        SocketClient(s, i, step, c);
      }
  }

  lemma StepKeepsClients(s: State, e: Event)
    requires Enabled(s, e) && Shapes(s) && Clients(s)
    ensures Clients(Apply(s, e))
  {
    var s' := Apply(s, e);
    StepKeepsDebts(s, e);
    forall c | c in s'.clients ensures ClientOk(s', s'.clients[c]) {
      StepClient(s, e, c);
      StepKeeps(s, e, s'.clients[c].pair);
      KeepsClient(s, s', s'.clients[c]);
    }
  }

  lemma SocketClient(s: State, i: nat, e: SocketStep, c: nat)
    requires SocketEnabled(s, i, e) && c in SocketApply(s, i, e).clients && c != i
    ensures c in s.clients && SocketApply(s, i, e).clients[c] == s.clients[c]
  {
  }
}
