/** Exactly when a websocket client that has read everything can be left with an old
    book. */
module Outdated {
  import opened Types
  import opened PriceTime
  import opened Protocol
  import opened Locking
  import opened Watchers
  import opened Interleavings

  predicate OfClient(e: Event, c: nat) {
    (e.Join? || e.Socket?) && e.c == c
  }

  /** The run without the events of client `c`. */
  function Others(es: seq<Event>, c: nat): seq<Event> {
    if es == [] then [] else
      var front, e := Others(es[..|es| - 1], c), es[|es| - 1];
      if OfClient(e, c) then front else front + [e]
  }

  /** It has read all its notifications and shows a book that is not the current one. */
  ghost predicate Stale(s: State, c: nat, p: Pair) {
    && InPhase(s, c, Idle) && s.clients[c].pair == p && s.clients[c].next == |s.notes|
    && s.clients[c].shown != BookOf(s, p)
  }

  /** After `i` events nobody held the books, and since then the market has changed and
      no notification about it was sent. */
  ghost predicate Missed(es: seq<Event>, p: Pair, i: nat) {
    && i <= |es| && After(es[..i]).bookLock.None?
    && !Unread(After(es).notes, |After(es[..i]).notes|, p)
    && BookOf(After(es[..i]), p) != BookOf(After(es), p)
  }

  // --------------------------------------------------------- a client is a spectator

  function Hide(s: State, c: nat): State {
    s.(clients := s.clients - {c})
  }

  function Next(s: State, e: Event): State {
    if Enabled(s, e) then Apply(s, e) else s
  }

  lemma AfterNext(es: seq<Event>, e: Event)
    ensures After(es + [e]) == Next(After(es), e)
  {
    assert (es + [e])[..|es|] == es;
  }

  lemma HideOwn(s: State, e: Event, c: nat)
    requires OfClient(e, c)
    ensures Hide(Next(s, e), c) == Hide(s, c)
  {
    if Enabled(s, e) {
      OwnFrame(s, e, c);
      assert Apply(s, e).clients - {c} == s.clients - {c};
    }
  }

  /** A client's own event changes nothing but that client. */
  lemma OwnFrame(s: State, e: Event, c: nat)
    requires OfClient(e, c) && Enabled(s, e)
    ensures c in Apply(s, e).clients
    ensures Apply(s, e) == s.(clients := s.clients[c := Apply(s, e).clients[c]])
  {
    if e.Socket? {
      SocketSeen(s, c, e.socket);
    }
  }

  lemma SocketSeen(s: State, c: nat, e: SocketStep)
    requires SocketEnabled(s, c, e)
    ensures c in SocketApply(s, c, e).clients
    ensures SocketApply(s, c, e) == s.(clients := s.clients[c := SocketApply(s, c, e).clients[c]])
  {
  }

  lemma HideEnabled(s: State, r: nat, e: EngineStep, c: nat)
    ensures EngineEnabled(Hide(s, c), r, e) <==> EngineEnabled(s, r, e)
  {
  }

  lemma HideMatch(s: State, r: nat, id: u128, time: u128, clock: Clock, c: nat)
    requires EngineEnabled(s, r, MatchNow(id, time, clock))
    ensures EngineApply(Hide(s, c), r, MatchNow(id, time, clock)) ==
      Hide(EngineApply(s, r, MatchNow(id, time, clock)), c)
  {
  }

  lemma HideEngine(s: State, r: nat, e: EngineStep, c: nat)
    requires EngineEnabled(s, r, e) && EngineEnabled(Hide(s, c), r, e)
    ensures EngineApply(Hide(s, c), r, e) == Hide(EngineApply(s, r, e), c)
  {
    if e.MatchNow? {
      HideMatch(s, r, e.id, e.time, e.clock, c);
    }
  }

  lemma HideArchive(s: State, r: nat, e: ArchiveStep, c: nat)
    ensures ArchiveEnabled(Hide(s, c), r, e) <==> ArchiveEnabled(s, r, e)
    ensures ArchiveEnabled(s, r, e) ==> ArchiveApply(Hide(s, c), r, e) == Hide(ArchiveApply(s, r, e), c)
  {
  }

  lemma HideSocket(s: State, i: nat, e: SocketStep, c: nat)
    requires i != c
    ensures SocketEnabled(Hide(s, c), i, e) <==> SocketEnabled(s, i, e)
    ensures SocketEnabled(s, i, e) ==> SocketApply(Hide(s, c), i, e) == Hide(SocketApply(s, i, e), c)
  {
    if SocketEnabled(s, i, e) {
      SocketSeen(s, i, e);
      SocketSeen(Hide(s, c), i, e);
      var k := SocketApply(s, i, e).clients[i];
      assert SocketApply(Hide(s, c), i, e).clients[i] == k;
      assert (s.clients - {c})[i := k] == s.clients[i := k] - {c};
    }
  }

  lemma HideOther(s: State, e: Event, c: nat)
    requires !OfClient(e, c)
    ensures Next(Hide(s, c), e) == Hide(Next(s, e), c)
  {
    match e
    case Engine(r, step) =>
      HideEnabled(s, r, step, c);
      if EngineEnabled(s, r, step) {
        HideEngine(s, r, step, c);
      }
    case Archive(r, step) => HideArchive(s, r, step, c);
    case Socket(i, step) => HideSocket(s, i, step, c);
    case Post(_, _) =>
    case Remove(_, _, _) =>
    case Join(i, p) =>
      var k := Client(p, Joining, 0, EMPTY_BOOK, |s.feed|, |s.feed|, []);
      assert (s.clients - {c})[i := k] == s.clients[i := k] - {c};
  }

  /** Leaving a client out changes nothing for anybody else. */
  lemma {:induction false} HiddenRun(es: seq<Event>, c: nat)
    ensures After(Others(es, c)) == Hide(After(es), c)
  {
    if es == [] {
      assert START.clients - {c} == START.clients;
    } else {
      var front, e := es[..|es| - 1], es[|es| - 1];
      assert es == front + [e];
      HiddenRun(front, c);
      AfterNext(front, e);
      if OfClient(e, c) {
        HideOwn(After(front), e, c);
      } else {
        HideOther(After(front), e, c);
        AfterNext(Others(front, c), e);
      }
    }
  }

  // ------------------------------------------------------------ where a client starts

  /** The client subscribed to trades at `feed` and, once it has subscribed to books, did so
      at `notes` or later. */
  ghost predicate Began(s: State, c: nat, p: Pair, feed: nat, notes: nat) {
    && c in s.clients && s.clients[c].pair == p && s.clients[c].tradeFrom == feed
    && notes <= |s.notes| && (s.clients[c].phase != Joining ==> notes <= s.clients[c].next)
  }

  lemma SocketBegan(s: State, c: nat, e: SocketStep, p: Pair, feed: nat, notes: nat)
    requires SocketEnabled(s, c, e) && Began(s, c, p, feed, notes)
    ensures Began(SocketApply(s, c, e), c, p, feed, notes)
  {
  }

  lemma StepBegan(s: State, e: Event, c: nat, p: Pair, feed: nat, notes: nat)
    requires Enabled(s, e) && Began(s, c, p, feed, notes)
    ensures Began(Apply(s, e), c, p, feed, notes)
  {
    if OfClient(e, c) {
      SocketBegan(s, c, e.socket, p, feed, notes);
    } else {
      OtherSame(s, e, c);
      StepKeeps(s, e, p);
    }
  }

  lemma {:induction false} StillBegan(es: seq<Event>, more: seq<Event>, c: nat, p: Pair, feed: nat, notes: nat)
    requires Began(After(es), c, p, feed, notes)
    ensures Began(After(es + more), c, p, feed, notes)
  {
    if more == [] {
      assert es + more == es;
    } else {
      var front, e := more[..|more| - 1], more[|more| - 1];
      StillBegan(es, front, c, p, feed, notes);
      assert es + more == (es + front) + [e];
      AfterNext(es + front, e);
      if Enabled(After(es + front), e) {
        StepBegan(After(es + front), e, c, p, feed, notes);
      }
    }
  }

  /** A client is sent trades of its market from the moment it joined on, in channel order,
      and no older ones; nor is it told of changes announced before. */
  lemma FromThenOn(front: seq<Event>, c: nat, p: Pair, back: seq<Event>)
    requires c !in After(front).clients
    ensures var s0, s := After(front), After(front + [Join(c, p)] + back);
      && c in s.clients && s.clients[c].pair == p
      && |s0.feed| <= s.clients[c].tradeNext <= |s.feed|
      && s.clients[c].frames == OfSymbol(s.feed[|s0.feed|..s.clients[c].tradeNext], p.Code())
      && (s.clients[c].phase != Joining ==> |s0.notes| <= s.clients[c].next)
  {
    var s0 := After(front);
    AfterNext(front, Join(c, p));
    StillBegan(front + [Join(c, p)], back, c, p, |s0.feed|, |s0.notes|);
    AlwaysSafe(front + [Join(c, p)] + back);
    var s := After(front + [Join(c, p)] + back);
    assert ClientOk(s, s.clients[c]);
  }

  lemma SocketInTurn(s: State, c: nat, e: SocketStep)
    requires SocketEnabled(s, c, e)
    ensures var k, k' := s.clients[c], SocketApply(s, c, e).clients[c];
      && k'.next == (if e.Open? then |s.notes| else if e.Take? then k.next + 1 else k.next)
      && k'.tradeNext == (if e.Forward? then k.tradeNext + 1 else k.tradeNext)
      && (e.Take? ==> k.next < |s.notes| && (k'.phase == Refreshing <==> s.notes[k.next] == k.pair))
  {
  }

  /** From its subscription on a client takes notifications and trades one at a time and
      skips none, whatever else happens; a notification makes it send a snapshot if and
      only if it is about the client's market. */
  lemma InTurn(s: State, e: Event, c: nat)
    requires Enabled(s, e) && c in s.clients && s.clients[c].phase != Joining
    ensures c in Apply(s, e).clients
    ensures var k, k' := s.clients[c], Apply(s, e).clients[c];
      && k'.next == (if e == Socket(c, Take) then k.next + 1 else k.next)
      && k'.tradeNext == (if e == Socket(c, Forward) then k.tradeNext + 1 else k.tradeNext)
      && (e == Socket(c, Take) ==> (k'.phase == Refreshing <==> s.notes[k.next] == k.pair))
  {
    if OfClient(e, c) {
      SocketInTurn(s, c, e.socket);
    } else {
      OtherSame(s, e, c);
    }
  }

  // ---------------------------------------------------------- the last snapshot sent

  /** No notification about the market in this stretch of the channel. */
  ghost predicate Silent(notes: seq<Pair>, from: nat, to: nat, p: Pair) {
    to <= |notes| && forall n :: from <= n < to ==> notes[n] != p
  }

  /** The last snapshot was of the book in state `past`, when nobody held the books, and
      nothing read since was about the market. */
  ghost predicate SeenIn(past: State, notes: seq<Pair>, k: Client) {
    past.bookLock.None? && k.shown == BookOf(past, k.pair) && Silent(notes, |past.notes|, k.next, k.pair)
  }

  ghost predicate SeenAt(es: seq<Event>, k: Client, j: nat) {
    j <= |es| && SeenIn(After(es[..j]), After(es).notes, k)
  }

  lemma SeenGrows(es: seq<Event>, e: Event, k: Client, j: nat)
    requires SeenAt(es, k, j) && After(es).notes <= After(es + [e]).notes
    ensures SeenAt(es + [e], k, j)
  {
    assert (es + [e])[..j] == es[..j];
  }

  /** A client's step sends a snapshot, or reads a notification about another market,
      or leaves both alone. */
  lemma SocketKinds(s: State, c: nat, e: SocketStep)
    requires SocketEnabled(s, c, e) && InPhase(SocketApply(s, c, e), c, Idle)
    ensures var k, k' := s.clients[c], SocketApply(s, c, e).clients[c];
      if e.FirstSnapshot? || e.Refresh? then
        s.bookLock.None? && k'.shown == BookOf(s, k'.pair) && k'.next == k.next
      else
        k.phase == Idle && ReadsOn(s.notes, k, k')
  {
  }

  lemma SnapshotSeen(es: seq<Event>, e: Event, k: Client)
    requires After(es).bookLock.None? && k.shown == BookOf(After(es), k.pair) && k.next <= |After(es).notes|
    requires After(es + [e]).notes == After(es).notes
    ensures SeenAt(es + [e], k, |es|)
  {
    assert (es + [e])[..|es|] == es;
  }

  /** It read on, but nothing about its market. */
  ghost predicate ReadsOn(notes: seq<Pair>, k: Client, k': Client) {
    && k'.shown == k.shown && k'.pair == k.pair
    && (k'.next == k.next || (k'.next == k.next + 1 <= |notes| && notes[k.next] != k.pair))
  }

  lemma ReadIn(past: State, notes: seq<Pair>, k: Client, k': Client)
    requires SeenIn(past, notes, k) && ReadsOn(notes, k, k')
    ensures SeenIn(past, notes, k')
  {
  }

  lemma ReadSeen(es: seq<Event>, e: Event, k: Client, k': Client, j: nat)
    requires SeenAt(es, k, j) && After(es + [e]).notes == After(es).notes && ReadsOn(After(es).notes, k, k')
    ensures SeenAt(es + [e], k', j)
  {
    assert (es + [e])[..j] == es[..j];
    ReadIn(After(es[..j]), After(es).notes, k, k');
  }

  /** What the client's own event means for its last snapshot. */
  lemma OwnSeen(es: seq<Event>, e: Event, c: nat, j: nat) returns (i: nat)
    requires OfClient(e, c) && Enabled(After(es), e) && InPhase(Apply(After(es), e), c, Idle)
    requires InPhase(After(es), c, Idle) ==> SeenAt(es, After(es).clients[c], j)
    requires c in After(es).clients ==> After(es).clients[c].next <= |After(es).notes|
    ensures SeenAt(es + [e], Apply(After(es), e).clients[c], i)
  {
    var s := After(es);
    AfterNext(es, e);
    OwnFrame(s, e, c);
    SocketKinds(s, c, e.socket);
    if e.socket.FirstSnapshot? || e.socket.Refresh? {
      i := |es|;
      SnapshotSeen(es, e, Apply(s, e).clients[c]);
    } else {
      i := j;
      ReadSeen(es, e, s.clients[c], Apply(s, e).clients[c], j);
    }
  }

  /** Another event leaves the client and its last snapshot alone. */
  lemma OtherSeen(es: seq<Event>, e: Event, c: nat)
    requires !OfClient(e, c) || !Enabled(After(es), e)
    ensures After(es).notes <= After(es + [e]).notes
    ensures c in After(es + [e]).clients <==> c in After(es).clients
    ensures c in After(es).clients ==> After(es + [e]).clients[c] == After(es).clients[c]
  {
    AfterNext(es, e);
    if Enabled(After(es), e) {
      OtherSame(After(es), e, c);
      StepKeeps(After(es), e, BTC_USD);
    }
  }

  lemma OtherSame(s: State, e: Event, c: nat)
    requires !OfClient(e, c) && Enabled(s, e)
    ensures c in Apply(s, e).clients <==> c in s.clients
    ensures c in s.clients ==> Apply(s, e).clients[c] == s.clients[c]
  {
    match e
    case Engine(r, step) => EngineFrame(s, r, step);
    case Archive(r, step) => ArchiveFrame(s, r, step);
    case Socket(i, step) => SocketSeen(s, i, step);
    case Post(_, _) =>
    case Remove(_, _, _) =>
    case Join(_, _) =>
  }

  lemma {:induction false} LastSnapshot(es: seq<Event>, c: nat) returns (j: nat)
    requires InPhase(After(es), c, Idle)
    ensures SeenAt(es, After(es).clients[c], j)
  {
    var front, e := es[..|es| - 1], es[|es| - 1];
    assert es == front + [e];
    j := 0;
    if InPhase(After(front), c, Idle) {
      j := LastSnapshot(front, c);
    }
    if OfClient(e, c) && Enabled(After(front), e) {
      AfterNext(front, e);
      NextInChannel(front, c);
      j := OwnSeen(front, e, c, j);
    } else {
      OtherSeen(front, e, c);
      SeenGrows(front, e, After(front).clients[c], j);
    }
  }

  lemma NextInChannel(es: seq<Event>, c: nat)
    ensures c in After(es).clients ==> After(es).clients[c].next <= |After(es).notes|
  {
    AlwaysSafe(es);
    assert c in After(es).clients ==> ClientOk(After(es), After(es).clients[c]);
  }

  lemma StaleMeansMissed(es: seq<Event>, c: nat, p: Pair) returns (j: nat)
    requires Stale(After(es), c, p)
    ensures Missed(es, p, j)
  {
    j := LastSnapshot(es, c);
  }

  lemma {:induction false} OthersPrefix(es: seq<Event>, j: nat, c: nat)
    requires j <= |es|
    ensures Others(es[..j], c) <= Others(es, c)
  {
    if j < |es| {
      assert es[..|es| - 1][..j] == es[..j];
      OthersPrefix(es[..|es| - 1], j, c);
    } else {
      assert es[..j] == es;
    }
  }

  lemma MissedWithout(es: seq<Event>, c: nat, p: Pair, j: nat) returns (i: nat)
    requires Missed(es, p, j)
    ensures Missed(Others(es, c), p, i)
  {
    i := |Others(es[..j], c)|;
    OthersPrefix(es, j, c);
    assert Others(es, c)[..i] == Others(es[..j], c);
    HiddenRun(es, c);
    HiddenRun(es[..j], c);
  }

  // ------------------------------------------------------- a client at that moment

  lemma {:induction false} NoClient(es: seq<Event>, c: nat)
    requires forall e :: e in es ==> !OfClient(e, c)
    ensures c !in After(es).clients && Others(es, c) == es
  {
    if es != [] {
      var front, e := es[..|es| - 1], es[|es| - 1];
      assert es == front + [e];
      assert e in es && forall x :: x in front ==> x in es;
      NoClient(front, c);
      AfterNext(front, e);
      if Enabled(After(front), e) {
        OtherSame(After(front), e, c);
      }
    }
  }

  lemma {:induction false} OthersAppend(es: seq<Event>, more: seq<Event>, c: nat)
    ensures Others(es + more, c) == Others(es, c) + Others(more, c)
  {
    if more == [] {
      assert es + more == es;
    } else {
      var front := more[..|more| - 1];
      assert (es + more)[..|es + more| - 1] == es + front;
      OthersAppend(es, front, c);
    }
  }

  lemma OwnMore(es: seq<Event>, e: Event, c: nat) returns (es': seq<Event>)
    requires OfClient(e, c) && Enabled(After(es), e)
    ensures es' == es + [e] && Others(es', c) == Others(es, c)
    ensures After(es') == Apply(After(es), e)
  {
    es' := More(es, e);
    assert es'[..|es' | - 1] == es;
  }

  /** A client joins and is shown the book. */
  lemma Watches(es: seq<Event>, c: nat, p: Pair) returns (es': seq<Event>)
    requires c !in After(es).clients && After(es).bookLock.None?
    ensures Others(es', c) == Others(es, c)
    ensures var s, s' := After(es), After(es');
      InPhase(s', c, Idle) && s'.clients[c].pair == p && s'.clients[c].next == |s.notes| &&
      s'.clients[c].shown == BookOf(s, p)
  {
    var s := After(es);
    es' := OwnMore(es, Join(c, p), c);
    assert InPhase(After(es'), c, Joining) && After(es').notes == s.notes;
    es' := OwnMore(es', Socket(c, Open), c);
    assert InPhase(After(es'), c, Opening) && After(es').clients[c].next == |s.notes|;
    es' := OwnMore(es', Socket(c, FirstSnapshot), c);
  }

  lemma {:induction false} Waits(es: seq<Event>, more: seq<Event>, c: nat)
    requires c in After(es).clients && forall e :: e in more ==> !OfClient(e, c)
    ensures c in After(es + more).clients && After(es + more).clients[c] == After(es).clients[c]
  {
    if more == [] {
      assert es + more == es;
    } else {
      var front, e := more[..|more| - 1], more[|more| - 1];
      assert e in more && forall x :: x in front ==> x in more;
      Waits(es, front, c);
      assert es + more == (es + front) + [e];
      AfterNext(es + front, e);
      if Enabled(After(es + front), e) {
        OtherSame(After(es + front), e, c);
      }
    }
  }

  /** A client takes its notifications one after the other; none is about its market. */
  lemma {:induction false} ReadsAll(es: seq<Event>, c: nat) returns (es': seq<Event>)
    requires InPhase(After(es), c, Idle)
    requires var k := After(es).clients[c];
      k.next <= |After(es).notes| && !Unread(After(es).notes, k.next, k.pair)
    ensures Others(es', c) == Others(es, c)
    ensures var s, s' := After(es), After(es');
      InPhase(s', c, Idle) && s'.clients[c] == s.clients[c].(next := |s.notes|)
    decreases |After(es).notes| - After(es).clients[c].next
  {
    var s := After(es);
    var k := s.clients[c];
    if k.next == |s.notes| {
      es' := es;
    } else {
      assert s.notes[k.next] != k.pair;
      var es1 := OwnMore(es, Socket(c, Take), c);
      assert After(es1) == s.Seen(c, k.(next := k.next + 1));
      es' := ReadsAll(es1, c);
    }
  }

  lemma SameForOthers(es: seq<Event>, es': seq<Event>, c: nat)
    requires Others(es', c) == es
    ensures After(es').notes == After(es).notes && After(es').x == After(es).x
  {
    HiddenRun(es', c);
  }

  /** The client joins after the first part of the run and waits for the rest. */
  lemma WatchesFrom(front: seq<Event>, back: seq<Event>, p: Pair, c: nat) returns (es: seq<Event>)
    requires forall e :: e in front || e in back ==> !OfClient(e, c)
    requires After(front).bookLock.None?
    ensures Others(es, c) == front + back && InPhase(After(es), c, Idle)
    ensures var k := After(es).clients[c];
      k.pair == p && k.next == |After(front).notes| && k.shown == BookOf(After(front), p)
  {
    NoClient(front, c);
    NoClient(back, c);
    var es1 := Watches(front, c, p);
    Waits(es1, back, c);
    OthersAppend(es1, back, c);
    es := es1 + back;
  }

  lemma MissedMeansStale(es: seq<Event>, p: Pair, i: nat, c: nat) returns (es': seq<Event>)
    requires Missed(es, p, i) && forall e :: e in es ==> !OfClient(e, c)
    ensures Others(es', c) == es && Stale(After(es'), c, p)
  {
    var front, back := es[..i], es[i..];
    assert es == front + back;
    assert forall e :: e in front || e in back ==> e in es;
    var es1 := WatchesFrom(front, back, p, c);
    SameForOthers(es, es1, c);
    NextInChannel(es1, c);
    es' := ReadsAll(es1, c);
    SameForOthers(es, es', c);
  }

  /** For any run, market and client not in it: events of that client can be inserted so
      that it ends with everything read and an old book, if and only if there was a moment
      when nobody held the books, since when the market has changed without any
      notification about it. */
  lemma OutdatedExactly(es: seq<Event>, p: Pair, c: nat)
    requires forall e :: e in es ==> !OfClient(e, c)
    ensures (exists es' :: Others(es', c) == es && Stale(After(es'), c, p)) <==> (exists i :: Missed(es, p, i))
  {
    if es' :| Others(es', c) == es && Stale(After(es'), c, p) {
      var j := StaleMeansMissed(es', c, p);
      var i := MissedWithout(es', c, p, j);
    }
    if i :| Missed(es, p, i) {
      var es' := MissedMeansStale(es, p, i, c);
    }
  }

  // ------------------------------------------------------------------ a run

  /** A client of the market before it has been shown anything, and after. */
  const VIEWER := Client(BTC_USD, Joining, 0, EMPTY_BOOK, 0, 0, [])

  function Viewed(phase: Phase): State {
    START.(clients := map[0 := VIEWER.(phase := phase)])
  }

  /** The client is idle and a request is under way. */
  function Underway(ask: NewOrder, stage: Stage, books: Option<nat>, log: Option<nat>): State {
    Viewed(Idle).(reqs := map[0 := Create(ask, stage, EMPTY_BOOK, 0, [], 0, 0)], bookLock := books, logLock := log)
  }

  lemma Joined() returns (es: seq<Event>)
    ensures After(es) == Viewed(Joining)
  {
    es := More([], Join(0, BTC_USD));
  }

  lemma Subscribed() returns (es: seq<Event>)
    ensures After(es) == Viewed(Opening)
  {
    es := Joined();
    es := More(es, Socket(0, Open));
  }

  /** A client joins before anything has happened and is shown the empty book. */
  lemma Watching() returns (es: seq<Event>)
    ensures After(es) == Viewed(Idle)
  {
    es := Subscribed();
    es := More(es, Socket(0, FirstSnapshot));
  }

  lemma Posted(ask: NewOrder) returns (es: seq<Event>)
    requires ask.quantity > 0
    ensures After(es) == Underway(ask, Asked, None, None)
  {
    es := Watching();
    es := More(es, Post(0, ask));
  }

  lemma Entered(ask: NewOrder) returns (es: seq<Event>)
    requires ask.quantity > 0
    ensures After(es) == Underway(ask, HasBooks, Some(0), None)
  {
    es := Posted(ask);
    es := More(es, Engine(0, LockBooks));
  }

  lemma Locked(ask: NewOrder) returns (es: seq<Event>)
    requires ask.quantity > 0 && ask.pair == BTC_USD
    ensures After(es) == Underway(ask, HasBoth, Some(0), Some(0))
  {
    es := Entered(ask);
    es := More(es, Engine(0, LockLog));
  }

  /** A request has both locks and has read the book. */
  lemma Admitted(ask: NewOrder) returns (es: seq<Event>)
    requires ask.quantity > 0 && ask.pair == BTC_USD
    ensures After(es) == Underway(ask, Looking, Some(0), Some(0))
  {
    es := Locked(ask);
    es := More(es, Engine(0, ReadBook));
  }

  /** Its order, which nothing in the empty book can meet, rests. */
  lemma Rested() returns (es: seq<Event>)
    ensures var s := After(es);
      && s.clients == Viewed(Idle).clients && s.notes == []
      && s.reqs.Keys == {0} && Creating(s, 0, Unlogged) && s.unannounced == {BTC_USD}
      && BookOf(s, BTC_USD) != EMPTY_BOOK
  {
    var ask := NewOrder(Buy, Limit, Some(100), 1, BTC_USD);
    es := Admitted(ask);
    es := More(es, Engine(0, MatchNow(7, 0, n => 0)));
    assert BookOf(After(es), BTC_USD).bids == [ask.Placed(7, 0)];
  }

  /** Why a market must have been announced: an order whose client goes away
      while it waits for the store stays in the book, and a websocket client that has
      read everything is never told. */
  lemma AbandonedOrderIsNotAnnounced() returns (es: seq<Event>)
    ensures var s := After(es);
      && 0 in s.clients && s.clients[0].phase == Idle && s.clients[0].next == |s.notes|
      && s.reqs.Keys == {0} && s.reqs[0].stage == Aborted && s.unannounced == {s.clients[0].pair}
      && s.clients[0].shown != BookOf(s, s.clients[0].pair)
  {
    es := Rested();
    es := More(es, Engine(0, LogNow));
    es := More(es, Engine(0, Abort));
  }
}
