/** Walking through a symbol's history page by page, with and without inserts on the
    way, and clearing it. */
module Paging {
  import opened Types
  import opened Ordered
  import opened Keys
  import opened TradeStore

  /** Everything filed under the symbol's prefix is a trade of that symbol. */
  ghost predicate Clean(db: Db, symbol: Bytes) {
    Consistent(db) && forall k :: k in db && Prefix(symbol) <= k ==> db[k].symbol == symbol
  }

  ghost predicate AllColonFree(db: Db) {
    forall k :: k in db ==> ColonFree(db[k].symbol)
  }

  lemma CleanIfColonFree(db: Db, symbol: Bytes)
    requires Consistent(db) && AllColonFree(db) && ColonFree(symbol)
    ensures Clean(db, symbol)
    ensures forall k :: k in db ==> (Prefix(symbol) <= k <==> db[k].symbol == symbol)
  {
    forall k | k in db ensures Prefix(symbol) <= k <==> db[k].symbol == symbol {
      PrefixExact(symbol, db[k]);
      if Prefix(symbol) <= db[k].symbol {
        assert Prefix(symbol)[|symbol|] == COLON;
      }
    }
  }

  function TradeOrder(): (Trade, Trade) -> bool {
    (t: Trade, u: Trade) => TradeLess(t, u)
  }

  // --------------------------------------------------------------- keys and values

  lemma {:induction false} UnderAscending(keys: seq<Bytes>, p: Bytes)
    requires Ascending(Lex(), keys)
    ensures Ascending(Lex(), Under(keys, p))
  {
    if keys != [] {
      UnderAscending(keys[1..], p);
      UnderMembers(keys[1..], p);
      assert ([keys[0]] + Under(keys[1..], p))[1..] == Under(keys[1..], p);
    }
  }

  lemma {:induction false} ValuesAt(db: Db, keys: seq<Bytes>, i: nat)
    requires (forall k :: k in keys ==> k in db) && i < |keys|
    ensures Values(db, keys)[i] == db[keys[i]]
  {
    if i > 0 {
      ValuesAt(db, keys[1..], i - 1);
    }
  }

  lemma ValuesMembers(db: Db, keys: seq<Bytes>, t: Trade)
    requires forall k :: k in keys ==> k in db
    ensures t in Values(db, keys) <==> exists k :: k in keys && db[k] == t
  {
    if t in Values(db, keys) {
      var i :| 0 <= i < |keys| && Values(db, keys)[i] == t;
      ValuesAt(db, keys, i);
      assert keys[i] in keys;
    }
    forall k | k in keys && db[k] == t ensures t in Values(db, keys) {
      var i :| 0 <= i < |keys| && keys[i] == k;
      ValuesAt(db, keys, i);
    }
  }

  /** The symbol's keys: exactly those under the prefix, in order. */
  lemma SymbolKeysAre(db: Db, symbol: Bytes)
    ensures Ascending(Lex(), SymbolKeys(db, symbol))
    ensures forall k :: k in SymbolKeys(db, symbol) <==> k in db && Prefix(symbol) <= k
  {
    UnderAscending(SortedKeys(db), Prefix(symbol));
    UnderMembers(SortedKeys(db), Prefix(symbol));
  }

  /** Byte order of a symbol's keys is the order of the trades they hold. */
  lemma KeysOrderTrades(db: Db, symbol: Bytes, k: Bytes, l: Bytes)
    requires Clean(db, symbol) && k in db && l in db && Prefix(symbol) <= k && Prefix(symbol) <= l
    ensures LexLess(k, l) <==> TradeLess(db[k], db[l])
  {
    KeyOrder(symbol, db[k], db[l]);
  }

  lemma {:induction false} ValuesAscending(db: Db, symbol: Bytes, keys: seq<Bytes>)
    requires Clean(db, symbol) && Ascending(Lex(), keys)
    requires forall k :: k in keys ==> k in db && Prefix(symbol) <= k
    ensures Ascending(TradeOrder(), Values(db, keys))
  {
    if keys != [] {
      assert keys[0] in keys && forall k :: k in keys[1..] ==> k in keys;
      ValuesAscending(db, symbol, keys[1..]);
      var t, rest := db[keys[0]], Values(db, keys[1..]);
      forall u | u in rest ensures TradeOrder()(t, u) {
        ValuesMembers(db, keys[1..], u);
        var k :| k in keys[1..] && db[k] == u;
        assert Lex()(keys[0], k);
        KeysOrderTrades(db, symbol, keys[0], k);
      }
      assert ([t] + rest)[1..] == rest;
    }
  }

  /** The keys above one of an ascending list are those behind it. */
  lemma {:induction false} AboveIsSuffix(keys: seq<Bytes>, i: nat)
    requires Ascending(Lex(), keys) && i < |keys|
    ensures Above(keys, keys[i]) == keys[i + 1..]
  {
    if i == 0 {
      LexIrreflexive(keys[0]);
      forall k | k in keys[1..] ensures LexLess(keys[0], k) {
        assert Lex()(keys[0], k);
      }
      AboveEvery(keys[1..], keys[0]);
    } else {
      assert keys[i] == keys[1..][i - 1] && keys[i] in keys[1..];
      assert Lex()(keys[0], keys[i]);
      if LexLess(keys[i], keys[0]) {
        LexTransitive(keys[0], keys[i], keys[0]);
        LexIrreflexive(keys[0]);
      }
      AboveIsSuffix(keys[1..], i - 1);
    }
  }

  // -------------------------------------------------------------------- history

  /** A symbol's trades as the store lists them. */
  function History(db: Db, symbol: Bytes): seq<Trade> {
    UnderMembers(SortedKeys(db), Prefix(symbol));
    Values(db, SymbolKeys(db, symbol))
  }

  /** The history is the symbol's stored trades, each once, in the order of trades. */
  lemma HistoryIs(db: Db, symbol: Bytes)
    requires Clean(db, symbol)
    ensures Ascending(TradeOrder(), History(db, symbol))
    ensures forall t :: t in History(db, symbol) <==> t.symbol == symbol && EncodeKey(symbol, t) in db
  {
    var keys := SymbolKeys(db, symbol);
    SymbolKeysAre(db, symbol);
    ValuesAscending(db, symbol, keys);
    forall t ensures t in History(db, symbol) <==> t.symbol == symbol && EncodeKey(symbol, t) in db {
      ValuesMembers(db, keys, t);
      InHistory(db, symbol, t);
    }
  }

  lemma InHistory(db: Db, symbol: Bytes, t: Trade)
    requires Clean(db, symbol)
    ensures t.symbol == symbol && EncodeKey(symbol, t) in db <==>
      exists k :: k in db && Prefix(symbol) <= k && db[k] == t
  {
    if t.symbol == symbol && EncodeKey(symbol, t) in db {
      KeyIsPrefixAndSuffix(symbol, t);
      KeyInjective(t, db[EncodeKey(symbol, t)]);
    }
  }

  lemma ValuesSuffix(db: Db, keys: seq<Bytes>, i: nat)
    requires (forall k :: k in keys ==> k in db) && i <= |keys|
    ensures forall k :: k in keys[i..] ==> k in db
    ensures Values(db, keys[i..]) == Values(db, keys)[i..]
  {
    assert keys == keys[..i] + keys[i..];
    ValuesConcat(db, keys[..i], keys[i..]);
  }

  // ------------------------------------------------------------------ one request

  function TokenOf(t: Trade): Token {
    EncodeCursor(CursorFromTrade(t))
  }

  function AfterTrade(last: Option<Trade>): Option<Token> {
    match last
    case None => None
    case Some(t) => Some(TokenOf(t))
  }

  /** The trade in front of position `i`. */
  function Before(h: seq<Trade>, i: nat): Option<Trade>
    requires i <= |h|
  {
    if i == 0 then None else Some(h[i - 1])
  }

  lemma PageAtKey(db: Db, symbol: Bytes, keys: seq<Bytes>, i: nat, limit: nat)
    requires Clean(db, symbol) && keys == SymbolKeys(db, symbol) && i < |keys| && keys[i] in db
    ensures forall k :: k in keys[i + 1..] ==> k in db
    ensures PageSpec(db, symbol, Some(TokenOf(db[keys[i]])), limit) == Ok(PageOf(Values(db, keys[i + 1..]), limit))
  {
    SymbolKeysAre(db, symbol);
    assert keys[i] in keys;
    assert KeyFromCursor(symbol, CursorFromTrade(db[keys[i]])) == keys[i];
    AboveIsSuffix(keys, i);
  }

  /** A request that continues behind the first `i` trades gets the next ones. */
  lemma PageBehind(db: Db, symbol: Bytes, h: seq<Trade>, i: nat, limit: nat)
    requires Clean(db, symbol) && h == History(db, symbol) && i <= |h|
    ensures PageSpec(db, symbol, AfterTrade(Before(h, i)), limit) == Ok(PageOf(h[i..], limit))
  {
    var keys := SymbolKeys(db, symbol);
    SymbolKeysAre(db, symbol);
    if i > 0 {
      ValuesAt(db, keys, i - 1);
      assert keys[i - 1] in keys;
      PageAtKey(db, symbol, keys, i - 1, limit);
      ValuesSuffix(db, keys, i);
    } else {
      assert h[0..] == h;
    }
  }

  /** The cursor names the trade, field by field, in version 1 of the format. */
  predicate CursorOf(t: Trade, c: Cursor) {
    && c.v == 1 && c.tsNanos == t.timestamp && c.makerId == t.makerId && c.takerId == t.takerId
    && c.price == t.price && c.quantity == t.quantity
  }

  ghost predicate FromStored(db: Db, symbol: Bytes, token: Token) {
    token.Encoded? && exists k :: k in db && db[k].symbol == symbol && CursorOf(db[k], token.cursor)
  }

  /** A cursor is accepted if and only if it was minted from a trade of this symbol
      that is in the store. */
  lemma CursorAccepted(db: Db, symbol: Bytes, token: Token, limit: nat)
    requires Consistent(db)
    ensures PageSpec(db, symbol, Some(token), limit) != BadCursor <==> FromStored(db, symbol, token)
  {
    if token.Encoded? && token.cursor.v == 1 {
      var c := token.cursor;
      var key := KeyFromCursor(symbol, c);
      var t := Trade(c.price, c.quantity, c.makerId, c.takerId, c.tsNanos, symbol);
      assert key == EncodeKey(symbol, t);
      assert Prefix(symbol) <= key by { KeyIsPrefixAndSuffix(symbol, t); }
      if key in db {
        KeyInjective(t, db[key]);
        assert CursorOf(db[key], c);
      }
    }
  }

  // ----------------------------------------------------- a walk on a fixed store

  datatype Walk = Walk(items: seq<Trade>, done: bool, rejected: bool)

  /** Requests that follow `next`, one for each state of the store and limit given;
      `done` when a page without `next` was reached. */
  function WalkFrom(dbs: seq<Db>, symbol: Bytes, after: Option<Token>, limits: seq<u64>): Walk
    requires |dbs| == |limits|
  {
    if dbs == [] then Walk([], false, false) else
    match PageSpec(dbs[0], symbol, after, Room(limits[0]))
    case BadCursor => Walk([], false, true)
    case Ok(page) =>
      if page.next.None? then LastPage(page)
      else Prepend(page, WalkFrom(dbs[1..], symbol, page.next, limits[1..]))
  }

  function LastPage(page: Page): Walk {
    Walk(page.items, true, false)
  }

  function Prepend(page: Page, w: Walk): Walk {
    Walk(page.items + w.items, w.done, w.rejected)
  }

  function Repeat<T>(x: T, m: nat): (r: seq<T>)
    ensures |r| == m
  {
    if m == 0 then [] else [x] + Repeat(x, m - 1)
  }

  /** How far `m` requests of `limit` reach. */
  function Reach(limit: nat, m: nat): nat {
    if m == 0 then 0 else limit + Reach(limit, m - 1)
  }

  lemma {:induction false} ReachIsProduct(limit: nat, m: nat)
    ensures Reach(limit, m) == m * limit
  {
    if m > 0 {
      ReachIsProduct(limit, m - 1);
    }
  }

  /** The first `n` trades from position `i` on, or all of them. */
  function Next(h: seq<Trade>, i: nat, n: nat): seq<Trade>
    requires i <= |h|
  {
    if |h| - i <= n then h[i..] else h[i..i + n]
  }

  lemma PageInMiddle(h: seq<Trade>, i: nat, limit: nat)
    requires 0 < limit && i + limit < |h|
    ensures PageOf(h[i..], limit) == Page(h[i..i + limit], AfterTrade(Before(h, i + limit)))
  {
    assert h[i..][..limit] == h[i..i + limit];
  }

  lemma NextSplits(h: seq<Trade>, i: nat, n: nat, more: nat)
    requires i + n < |h|
    ensures Next(h, i, n + more) == h[i..i + n] + Next(h, i + n, more)
  {
  }

  lemma WalkUnfolds(db: Db, symbol: Bytes, after: Option<Token>, limit: u64, m: nat, n: nat, page: Page)
    requires PageSpec(db, symbol, after, Room(limit)) == Ok(page) && m == n + 1
    ensures WalkFrom(Repeat(db, m), symbol, after, Repeat<u64>(limit, m)) ==
      if page.next.None? then LastPage(page)
      else Prepend(page, WalkFrom(Repeat(db, n), symbol, page.next, Repeat<u64>(limit, n)))
  {
    assert Repeat(db, m)[1..] == Repeat(db, n) && Repeat<u64>(limit, m)[1..] == Repeat<u64>(limit, n);
  }

  /** The walk that `m` requests behind the first `i` trades should give. */
  ghost function Expected(h: seq<Trade>, i: nat, limit: nat, m: nat): Walk
    requires i <= |h|
  {
    Walk(Next(h, i, Reach(limit, m)), m > 0 && |h| - i <= Reach(limit, m), false)
  }

  lemma ExpectedUnfolds(h: seq<Trade>, i: nat, limit: nat, m: nat, n: nat, page: Page)
    requires i <= |h| && limit > 0 && page == PageOf(h[i..], limit) && m == n + 1
    ensures page.next.None? ==> Expected(h, i, limit, m) == LastPage(page)
    ensures page.next.Some? ==> i + limit < |h| && page.next == AfterTrade(Before(h, i + limit))
    ensures page.next.Some? ==> Expected(h, i, limit, m) == Prepend(page, Expected(h, i + limit, limit, n))
  {
    var r := Reach(limit, n);
    assert Reach(limit, m) == limit + r;
    if i + limit < |h| {
      PageInMiddle(h, i, limit);
      NextSplits(h, i, limit, r);
    }
  }

  /** From any position the store answers with the page of `h` that starts there. */
  ghost predicate Serves(db: Db, symbol: Bytes, h: seq<Trade>, limit: nat) {
    forall i :: 0 <= i <= |h| ==> ServesAt(db, symbol, h, limit, i)
  }

  ghost predicate ServesAt(db: Db, symbol: Bytes, h: seq<Trade>, limit: nat, i: nat)
    requires i <= |h|
  {
    PageSpec(db, symbol, AfterTrade(Before(h, i)), limit) == Ok(PageOf(h[i..], limit))
  }

  lemma {:induction false} StaticFrom(db: Db, symbol: Bytes, h: seq<Trade>, i: nat, limit: u64, room: nat, m: nat)
    requires room == Room(limit) && Serves(db, symbol, h, room) && room > 0 && i <= |h|
    ensures WalkFrom(Repeat(db, m), symbol, AfterTrade(Before(h, i)), Repeat<u64>(limit, m)) == Expected(h, i, room, m)
    decreases m
  {
    if m == 0 {
      assert Next(h, i, 0) == [];
    } else {
      var page, n := PageOf(h[i..], room), m - 1;
      assert ServesAt(db, symbol, h, room, i);
      WalkUnfolds(db, symbol, AfterTrade(Before(h, i)), limit, m, n, page);
      ExpectedUnfolds(h, i, room, m, n, page);
      if page.next.Some? {
        StaticFrom(db, symbol, h, i + room, limit, room, n);
      }
    }
  }

  /** Paging through a store that does not change: with room for `room` items on a page,
      after `m` requests the walk has returned exactly the first `m * room` trades in
      order, or all of them, and it has ended if and only if `m` is at least one and that
      covers all. A limit that leaves no room ends the walk at once, with nothing. */
  lemma StaticWalk(db: Db, symbol: Bytes, limit: u64, m: nat)
    requires Clean(db, symbol)
    ensures var all, room := History(db, symbol), if limit == 0xFFFF_FFFF_FFFF_FFFF then 0 else limit;
      var w := WalkFrom(Repeat(db, m), symbol, None, Repeat<u64>(limit, m));
      && !w.rejected
      && w.items == (if |all| <= m * room then all else all[..m * room])
      && (w.done <==> m > 0 && (room == 0 || |all| <= m * room))
  {
    var h, room := History(db, symbol), Room(limit);
    if room == 0 {
      NoPages(db, symbol, limit, m);
    } else {
      ReachIsProduct(room, m);
      forall i | 0 <= i <= |h| ensures ServesAt(db, symbol, h, room, i) {
        PageBehind(db, symbol, h, i, room);
      }
      StaticFrom(db, symbol, h, 0, limit, room, m);
      assert h[0..] == h;
      if |h| > m * room {
        assert h[0..0 + m * room] == h[..m * room];
      }
    }
  }

  lemma NoPages(db: Db, symbol: Bytes, limit: u64, m: nat)
    requires Room(limit) == 0
    ensures WalkFrom(Repeat(db, m), symbol, None, Repeat<u64>(limit, m)) == Walk([], m > 0, false)
  {
    if m > 0 {
      WalkUnfolds(db, symbol, None, limit, m, m - 1, PageOf(History(db, symbol), 0));
    }
  }

  // ------------------------------------------------- a walk with inserts on the way

  ghost predicate Grows(d: Db, d': Db) {
    forall k :: k in d ==> k in d' && d'[k] == d[k]
  }

  /** Inserting a trade never replaces another one. */
  lemma InsertGrows(d: Db, t: Trade)
    requires Consistent(d)
    ensures var d' := d[EncodeKey(t.symbol, t) := t];
      Grows(d, d') && Consistent(d')
  {
    var key := EncodeKey(t.symbol, t);
    if key in d {
      KeyInjective(t, d[key]);
    }
  }

  /** States of the store at successive requests, with any inserts in between. */
  ghost predicate Growing(dbs: seq<Db>) {
    |dbs| <= 1 || (Grows(dbs[0], dbs[1]) && Growing(dbs[1..]))
  }

  ghost predicate PastCursor(last: Option<Trade>, t: Trade) {
    last.None? || TradeLess(last.value, t)
  }

  /** The items of a page: in order, behind the cursor, and stored. */
  ghost predicate InOrder(h: seq<Trade>, last: Option<Trade>, items: seq<Trade>) {
    Ascending(TradeOrder(), items) && forall t :: t in items ==> PastCursor(last, t) && t in h
  }

  /** Whatever lies beyond the cursor is on the page, or behind its last item and
      announced by `next`. */
  ghost predicate NothingSkipped(h: seq<Trade>, last: Option<Trade>, page: Page) {
    forall t :: t in h && PastCursor(last, t) && t !in page.items ==>
      page.next.Some? && page.items != [] && TradeLess(page.items[|page.items| - 1], t)
  }

  ghost predicate NextIsLast(page: Page) {
    page.next.Some? ==> page.items != [] && page.next == AfterTrade(Some(page.items[|page.items| - 1]))
  }

  /** What is behind a position is past it, and what is past it is behind it. */
  lemma BehindIsPast(h: seq<Trade>, i: nat, t: Trade)
    requires Ascending(TradeOrder(), h) && i <= |h| && t in h[i..]
    ensures t in h && PastCursor(Before(h, i), t)
  {
    var j :| 0 <= j < |h[i..]| && h[i..][j] == t;
    if i > 0 {
      AscendingAt(TradeOrder(), h, i - 1, i + j);
      assert TradeOrder()(h[i - 1], h[i + j]);
    }
  }

  lemma PastIsBehind(h: seq<Trade>, i: nat, t: Trade)
    requires Ascending(TradeOrder(), h) && i <= |h| && t in h && PastCursor(Before(h, i), t)
    ensures t in h[i..]
  {
    var j :| 0 <= j < |h| && h[j] == t;
    if j < i {
      FrontNotPast(h, i, j);
    }
    assert i <= j && h[i..][j - i] == t;
  }

  lemma FrontNotPast(h: seq<Trade>, i: nat, j: nat)
    requires Ascending(TradeOrder(), h) && j < i <= |h|
    ensures !PastCursor(Before(h, i), h[j])
  {
    if j < i - 1 {
      AscendingAt(TradeOrder(), h, j, i - 1);
      assert TradeOrder()(h[j], h[i - 1]);
    }
  }

  /** The front part of a list, and what it leaves out. */
  lemma FrontOf(rest: seq<Trade>, n: nat, t: Trade)
    requires Ascending(TradeOrder(), rest) && 0 < n < |rest|
    ensures Ascending(TradeOrder(), rest[..n])
    ensures t in rest[..n] ==> t in rest
    ensures t in rest && t !in rest[..n] ==> TradeLess(rest[n - 1], t)
  {
    assert rest == rest[..n] + rest[n..];
    AscendingSplit(TradeOrder(), rest[..n], rest[n..]);
    assert rest[..n][n - 1] in rest[..n];
    assert t in rest[n..] ==> TradeOrder()(rest[n - 1], t);
  }

  lemma Behind(h: seq<Trade>, i: nat)
    requires Ascending(TradeOrder(), h) && i <= |h|
    ensures forall t :: t in h[i..] <==> t in h && PastCursor(Before(h, i), t)
  {
    forall t ensures t in h[i..] <==> t in h && PastCursor(Before(h, i), t) {
      if t in h[i..] {
        BehindIsPast(h, i, t);
      }
      if t in h && PastCursor(Before(h, i), t) {
        PastIsBehind(h, i, t);
      }
    }
  }

  /** `rest` is what the list has past the cursor. */
  ghost predicate Past(h: seq<Trade>, last: Option<Trade>, rest: seq<Trade>) {
    Ascending(TradeOrder(), rest) && forall t :: t in rest <==> t in h && PastCursor(last, t)
  }

  lemma WholePage(h: seq<Trade>, last: Option<Trade>, rest: seq<Trade>, limit: nat)
    requires Past(h, last, rest) && |rest| <= limit
    ensures var page := PageOf(rest, limit);
      InOrder(h, last, page.items) && NothingSkipped(h, last, page) && NextIsLast(page)
  {
  }

  lemma FrontPage(h: seq<Trade>, last: Option<Trade>, rest: seq<Trade>, limit: nat)
    requires Past(h, last, rest) && 0 < limit < |rest|
    ensures var page := PageOf(rest, limit);
      InOrder(h, last, page.items) && NothingSkipped(h, last, page) && NextIsLast(page)
  {
    FrontOf(rest, limit, rest[0]);
    forall t | t in rest && t !in rest[..limit] ensures TradeLess(rest[limit - 1], t) {
      FrontOf(rest, limit, t);
    }
  }

  lemma PageFacts(h: seq<Trade>, i: nat, limit: nat)
    requires Ascending(TradeOrder(), h) && i <= |h| && limit > 0
    ensures var page := PageOf(h[i..], limit);
      InOrder(h, Before(h, i), page.items) && NothingSkipped(h, Before(h, i), page) && NextIsLast(page)
  {
    assert h == h[..i] + h[i..];
    AscendingSplit(TradeOrder(), h[..i], h[i..]);
    Behind(h, i);
    if |h[i..]| <= limit {
      WholePage(h, Before(h, i), h[i..], limit);
    } else {
      FrontPage(h, Before(h, i), h[i..], limit);
    }
  }

  ghost predicate WalkOk(h: seq<Trade>, symbol: Bytes, last: Option<Trade>, w: Walk) {
    && !w.rejected
    && Ascending(TradeOrder(), w.items)
    && (forall t :: t in w.items ==> PastCursor(last, t) && t.symbol == symbol)
    && (w.done ==> forall t :: t in h && PastCursor(last, t) ==> t in w.items)
  }

  /** A page in front of a walk that is in order is a walk that is in order. */
  lemma WalkStep(h: seq<Trade>, h': seq<Trade>, symbol: Bytes, last: Option<Trade>, page: Page, w: Walk)
    requires InOrder(h, last, page.items) && NothingSkipped(h, last, page) && page.items != []
    requires forall t :: t in h ==> t.symbol == symbol && t in h'
    requires WalkOk(h', symbol, Some(page.items[|page.items| - 1]), w)
    ensures WalkOk(h, symbol, last, Prepend(page, w))
  {
    var items := page.items;
    var u := items[|items| - 1];
    assert u in items;
    forall t | t in w.items ensures PastCursor(last, t) {
      assert PastCursor(Some(u), t);
    }
    forall x, y | x in items && y in w.items ensures TradeOrder()(x, y) {
      assert PastCursor(Some(u), y);
      LastIsGreatest(items, x);
    }
    AscendingJoin(TradeOrder(), items, w.items);
  }

  /** A page without `next` is a walk that is in order. */
  lemma LastPageOk(h: seq<Trade>, symbol: Bytes, last: Option<Trade>, page: Page)
    requires InOrder(h, last, page.items) && NothingSkipped(h, last, page) && page.next.None?
    requires forall t :: t in h ==> t.symbol == symbol
    ensures WalkOk(h, symbol, last, LastPage(page))
  {
  }

  lemma LastIsGreatest(items: seq<Trade>, x: Trade)
    requires Ascending(TradeOrder(), items) && x in items
    ensures x == items[|items| - 1] || TradeLess(x, items[|items| - 1])
  {
    var i :| 0 <= i < |items| && items[i] == x;
    if i < |items| - 1 {
      AscendingAt(TradeOrder(), items, i, |items| - 1);
      assert TradeOrder()(items[i], items[|items| - 1]);
    }
  }

  lemma HistoryGrows(d: Db, d': Db, symbol: Bytes)
    requires Clean(d, symbol) && Clean(d', symbol) && Grows(d, d')
    ensures forall t :: t in History(d, symbol) ==> t in History(d', symbol)
  {
    HistoryIs(d, symbol);
    HistoryIs(d', symbol);
  }

  /** One page of a walk, whatever trade it continues from. */
  lemma PageAfter(db: Db, symbol: Bytes, last: Option<Trade>, limit: nat) returns (page: Page)
    requires Clean(db, symbol) && limit > 0 && (last.Some? ==> last.value in History(db, symbol))
    ensures PageSpec(db, symbol, AfterTrade(last), limit) == Ok(page)
    ensures var h := History(db, symbol);
      InOrder(h, last, page.items) && NothingSkipped(h, last, page) && NextIsLast(page)
  {
    var h := History(db, symbol);
    var i: nat := 0;
    if last.Some? {
      var j :| 0 <= j < |h| && h[j] == last.value;
      i := j + 1;
    }
    HistoryIs(db, symbol);
    PageBehind(db, symbol, h, i, limit);
    PageFacts(h, i, limit);
    page := PageOf(h[i..], limit);
  }

  lemma WalkBegins(dbs: seq<Db>, symbol: Bytes, last: Option<Trade>, limits: seq<u64>, page: Page)
    requires |dbs| == |limits| > 0 && PageSpec(dbs[0], symbol, AfterTrade(last), Room(limits[0])) == Ok(page)
    ensures WalkFrom(dbs, symbol, AfterTrade(last), limits) ==
      if page.next.None? then LastPage(page) else Prepend(page, WalkFrom(dbs[1..], symbol, page.next, limits[1..]))
  {
  }

  lemma TailGrows(dbs: seq<Db>, symbol: Bytes, limits: seq<u64>)
    requires |dbs| == |limits| > 1 && Growing(dbs)
    requires forall d :: d in dbs ==> Clean(d, symbol)
    requires forall l :: l in limits ==> Room(l) > 0
    ensures Growing(dbs[1..]) && Clean(dbs[0], symbol)
    ensures forall d :: d in dbs[1..] ==> Clean(d, symbol)
    ensures forall l :: l in limits[1..] ==> Room(l) > 0
    ensures forall t :: t in History(dbs[0], symbol) ==> t.symbol == symbol && t in History(dbs[1], symbol)
  {
    assert dbs[0] in dbs && dbs[1] in dbs && forall d :: d in dbs[1..] ==> d in dbs;
    assert forall l :: l in limits[1..] ==> l in limits;
    HistoryIs(dbs[0], symbol);
    HistoryGrows(dbs[0], dbs[1], symbol);
  }

  /** A walk that is given up after a page that was not the last. */
  lemma WalkCutShort(h: seq<Trade>, symbol: Bytes, last: Option<Trade>, page: Page)
    requires InOrder(h, last, page.items) && NothingSkipped(h, last, page) && page.items != []
    requires forall t :: t in h ==> t.symbol == symbol
    ensures WalkOk(h, symbol, last, Prepend(page, Walk([], false, false)))
  {
    WalkStep(h, h, symbol, last, page, Walk([], false, false));
  }

  /** The first page and what follows it. */
  lemma WalkGoesOn(dbs: seq<Db>, symbol: Bytes, last: Option<Trade>, limits: seq<u64>, page: Page, u: Trade)
    requires |dbs| == |limits| > 1 && Growing(dbs)
    requires forall d :: d in dbs ==> Clean(d, symbol)
    requires forall l :: l in limits ==> Room(l) > 0
    requires var h := History(dbs[0], symbol);
      InOrder(h, last, page.items) && NothingSkipped(h, last, page) && NextIsLast(page)
    requires page.next.Some? && u == page.items[|page.items| - 1]
    requires WalkOk(History(dbs[1], symbol), symbol, Some(u),
                    WalkFrom(dbs[1..], symbol, AfterTrade(Some(u)), limits[1..]))
    ensures WalkOk(History(dbs[0], symbol), symbol, last,
                   Prepend(page, WalkFrom(dbs[1..], symbol, page.next, limits[1..])))
  {
    TailGrows(dbs, symbol, limits);
    WalkStep(History(dbs[0], symbol), History(dbs[1], symbol), symbol, last, page,
             WalkFrom(dbs[1..], symbol, page.next, limits[1..]));
  }

  lemma {:induction false} WalkFromIsOk(dbs: seq<Db>, symbol: Bytes, last: Option<Trade>, limits: seq<u64>)
    requires |dbs| == |limits| > 0 && Growing(dbs)
    requires forall d :: d in dbs ==> Clean(d, symbol)
    requires forall l :: l in limits ==> Room(l) > 0
    requires last.Some? ==> last.value in History(dbs[0], symbol)
    ensures WalkOk(History(dbs[0], symbol), symbol, last, WalkFrom(dbs, symbol, AfterTrade(last), limits))
  {
    assert limits[0] in limits && dbs[0] in dbs;
    var h := History(dbs[0], symbol);
    HistoryIs(dbs[0], symbol);
    var page := PageAfter(dbs[0], symbol, last, Room(limits[0]));
    WalkBegins(dbs, symbol, last, limits, page);
    if page.next.None? {
      LastPageOk(h, symbol, last, page);
    } else {
      var u := page.items[|page.items| - 1];
      assert u in page.items;
      if |dbs| == 1 {
        WalkCutShort(h, symbol, last, page);
      } else {
        TailGrows(dbs, symbol, limits);
        WalkFromIsOk(dbs[1..], symbol, Some(u), limits[1..]);
        WalkGoesOn(dbs, symbol, last, limits, page, u);
      }
    }
  }

  /** A walk from the start, with any inserts between its pages and any limits that
      leave room for an item (all but zero and the largest), never meets a rejected
      cursor, returns trades in strictly ascending order (so none twice), and when it ends
      has returned every trade of the symbol that was stored when it began; as long as no
      other symbol's keys fall under the prefix, which is so among symbols without a colon
      (`CleanIfColonFree`). */
  lemma WalkWithInserts(dbs: seq<Db>, symbol: Bytes, limits: seq<u64>)
    requires |dbs| == |limits| > 0 && Growing(dbs)
    requires forall d :: d in dbs ==> Clean(d, symbol)
    requires forall l :: l in limits ==> Room(l) > 0
    ensures var w := WalkFrom(dbs, symbol, None, limits);
      && !w.rejected
      && (forall i, j :: 0 <= i < j < |w.items| ==> TradeLess(w.items[i], w.items[j]))
      && (forall t :: t in w.items ==> t.symbol == symbol)
      && (w.done ==> forall k :: k in dbs[0] && dbs[0][k].symbol == symbol ==> dbs[0][k] in w.items)
  {
    assert dbs[0] in dbs;
    HistoryIs(dbs[0], symbol);
    WalkFromIsOk(dbs, symbol, None, limits);
    var w := WalkFrom(dbs, symbol, None, limits);
    forall i, j | 0 <= i < j < |w.items| ensures TradeLess(w.items[i], w.items[j]) {
      AscendingAt(TradeOrder(), w.items, i, j);
      assert TradeOrder()(w.items[i], w.items[j]);
    }
  }

  // ------------------------------------------------------- symbols with a colon

  /** The condition on the prefix is exact: one page that takes everything is of the
      symbol alone if and only if nothing else falls under the prefix. */
  lemma PureIfClean(db: Db, symbol: Bytes, limit: u64)
    requires Consistent(db) && |History(db, symbol)| <= Room(limit)
    ensures (forall t :: t in WalkFrom([db], symbol, None, [limit]).items ==> t.symbol == symbol) <==> Clean(db, symbol)
  {
    var h := History(db, symbol);
    assert WalkFrom([db], symbol, None, [limit]).items == h;
    SymbolKeysAre(db, symbol);
    if Clean(db, symbol) {
      HistoryIs(db, symbol);
    } else {
      var k :| k in db && Prefix(symbol) <= k && db[k].symbol != symbol;
      ValuesMembers(db, SymbolKeys(db, symbol), db[k]);
    }
  }

  lemma TwoInHistory(db: Db, symbol: Bytes, k: Bytes, l: Bytes)
    requires k in db && l in db && db[k] != db[l] && Prefix(symbol) <= k && Prefix(symbol) <= l
    ensures |History(db, symbol)| > 1
  {
    SymbolKeysAre(db, symbol);
    ValuesMembers(db, SymbolKeys(db, symbol), db[k]);
    ValuesMembers(db, SymbolKeys(db, symbol), db[l]);
    var h := History(db, symbol);
    var i :| 0 <= i < |h| && h[i] == db[k];
    var j :| 0 <= j < |h| && h[j] == db[l];
  }

  /** If only other symbols' trades fall under the prefix, and more than one does, a walk
      in pages of one is refused the cursor it was given. */
  lemma ForeignCursorRefused(db: Db, symbol: Bytes)
    requires Consistent(db) && |History(db, symbol)| > 1
    requires forall k :: k in db ==> db[k].symbol != symbol
    ensures WalkFrom([db, db], symbol, None, [1, 1]).rejected
  {
    var page := PageOf(History(db, symbol), 1);
    CursorAccepted(db, symbol, page.next.value, 1);
    assert [db, db][1..] == [db] && [1, 1][1..] == [1];
  }

  lemma UnderLonger(symbol: Bytes, t: Trade)
    requires Prefix(symbol) <= t.symbol
    ensures Prefix(symbol) <= EncodeKey(t.symbol, t)
  {
    KeyIsPrefixAndSuffix(t.symbol, t);
  }

  /** Two trades of a longer symbol are all it takes. */
  lemma LongerSymbolRefused(symbol: Bytes, t: Trade, u: Trade)
    requires t != u && t.symbol == u.symbol && Prefix(symbol) <= t.symbol
    ensures var db := map[EncodeKey(t.symbol, t) := t, EncodeKey(u.symbol, u) := u];
      Consistent(db) && WalkFrom([db, db], symbol, None, [1, 1]).rejected
  {
    var k, l := EncodeKey(t.symbol, t), EncodeKey(u.symbol, u);
    var db := map[k := t, l := u];
    if k == l {
      KeyInjective(t, u);
    }
    UnderLonger(symbol, t);
    UnderLonger(symbol, u);
    TwoInHistory(db, symbol, k, l);
    ForeignCursorRefused(db, symbol);
  }

  /** For example two trades of the symbol `A:B`, for a walk through `A`. */
  lemma ColonCursorRefused() returns (db: Db, symbol: Bytes)
    ensures Consistent(db) && ColonFree(symbol)
    ensures WalkFrom([db, db], symbol, None, [1, 1]).rejected
  {
    symbol := [65];
    var t, u := Trade(1, 1, 1, 3, 0, [65, 58, 66]), Trade(1, 1, 2, 3, 0, [65, 58, 66]);
    assert Prefix(symbol) == t.symbol[..2];
    LongerSymbolRefused(symbol, t, u);
    db := map[EncodeKey(t.symbol, t) := t, EncodeKey(u.symbol, u) := u];
  }

  // ---------------------------------------------------------------------- clearing

  lemma KeyNotUnder(symbol: Bytes, other: Bytes, c: Cursor)
    requires ColonFree(symbol) && ColonFree(other) && symbol != other
    ensures !(Prefix(symbol) <= KeyFromCursor(other, c))
  {
    var t := Trade(c.price, c.quantity, c.makerId, c.takerId, c.tsNanos, other);
    assert KeyFromCursor(other, c) == EncodeKey(other, t);
    PrefixExact(symbol, t);
    assert Prefix(symbol)[|symbol|] == COLON;
  }

  lemma SameSymbolKeys(db: Db, symbol: Bytes, other: Bytes)
    requires Consistent(db) && AllColonFree(db) && ColonFree(symbol) && ColonFree(other) && symbol != other
    ensures SymbolKeys(Cleared(db, symbol), other) == SymbolKeys(db, other)
  {
    CleanIfColonFree(db, symbol);
    CleanIfColonFree(db, other);
    SymbolKeysAre(db, other);
    SymbolKeysAre(Cleared(db, symbol), other);
    LexIsOrder();
    AscendingIsUnique(Lex(), SymbolKeys(Cleared(db, symbol), other), SymbolKeys(db, other));
  }

  lemma {:induction false} SameValues(db: Db, db': Db, keys: seq<Bytes>)
    requires forall k :: k in keys ==> k in db && k in db' && db[k] == db'[k]
    ensures Values(db, keys) == Values(db', keys)
  {
    if keys != [] {
      assert keys[0] in keys && forall k :: k in keys[1..] ==> k in keys;
      SameValues(db, db', keys[1..]);
    }
  }

  lemma OthersUntouched(db: Db, symbol: Bytes, other: Bytes, after: Option<Token>, limit: nat)
    requires Consistent(db) && AllColonFree(db) && ColonFree(symbol) && ColonFree(other) && symbol != other
    ensures PageSpec(Cleared(db, symbol), other, after, limit) == PageSpec(db, other, after, limit)
  {
    var db', keys := Cleared(db, symbol), SymbolKeys(db, other);
    SameSymbolKeys(db, symbol, other);
    SymbolKeysAre(db, other);
    SymbolKeysAre(db', other);
    if after.None? {
      SameValues(db, db', keys);
    } else if after.value.Encoded? && after.value.cursor.v == 1 {
      var key := KeyFromCursor(other, after.value.cursor);
      KeyNotUnder(symbol, other, after.value.cursor);
      AboveMembers(keys, key);
      SameValues(db, db', Above(keys, key));
    }
  }

  /** Clearing a symbol removes exactly its trades: its own history is one empty last
      page, and every page and cursor of every other symbol is as before. */
  lemma ClearExactly(db: Db, symbol: Bytes, other: Bytes, after: Option<Token>, limit: nat)
    requires Consistent(db) && AllColonFree(db) && ColonFree(symbol) && ColonFree(other) && symbol != other
    ensures forall k :: k in Cleared(db, symbol) <==> k in db && db[k].symbol != symbol
    ensures PageSpec(Cleared(db, symbol), symbol, None, limit) == Ok(Page([], None))
    ensures PageSpec(Cleared(db, symbol), other, after, limit) == PageSpec(db, other, after, limit)
  {
    CleanIfColonFree(db, symbol);
    NoneUnder(SortedKeys(Cleared(db, symbol)), Prefix(symbol));
    OthersUntouched(db, symbol, other, after, limit);
  }
}
