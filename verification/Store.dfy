/** The trade store of `store.rs`: an ordered map from keys to trades, read through
    an iterator, paged by cursor, and cleared by prefix. */
module TradeStore {
  import opened Types
  import opened Ordered
  import opened Keys

  type Db = map<Bytes, Trade>

  /** Every entry is filed under its own key. */
  ghost predicate Consistent(db: Db) {
    forall k :: k in db ==> k == EncodeKey(db[k].symbol, db[k])
  }

  function SortedKeys(db: Db): (r: seq<Bytes>)
    ensures Ascending(Lex(), r)
    ensures forall k :: k in r <==> k in db
  {
    LexIsOrder();
    Enumerate(Lex(), db.Keys)
  }

  // ----------------------------------------------------------------- the iterator

  /** Skip the keys below `from`. */
  function Seek(keys: seq<Bytes>, from: Bytes): seq<Bytes> {
    if keys == [] || !LexLess(keys[0], from) then keys else Seek(keys[1..], from)
  }

  /** A B-tree iterator over a fixed state of the store: `rest` is still to come. */
  class BTreeIterator {
    const db: Db
    var rest: seq<Bytes>

    ghost predicate Valid()
      reads this
    {
      forall k :: k in rest ==> k in db
    }

    constructor (db: Db)
      ensures Valid() && this.db == db && rest == SortedKeys(db)
    {
      this.db := db;
      rest := SortedKeys(db);
    }

    /** Stand before the first key that is not below `key`. */
    method SeekTo(key: Bytes)
      modifies this
      ensures Valid() && rest == Seek(SortedKeys(db), key)
    {
      rest := SortedKeys(db);
      while rest != [] && LexLess(rest[0], key)
        invariant Seek(rest, key) == Seek(SortedKeys(db), key)
        invariant forall k :: k in rest ==> k in db
        decreases |rest|
      {
        rest := rest[1..];
      }
    }

    method Next() returns (r: Option<(Bytes, Trade)>)
      requires Valid()
      modifies this
      ensures Valid()
      ensures old(rest) == [] ==> r == None && rest == []
      ensures old(rest) != [] ==> r == Some((old(rest)[0], db[old(rest)[0]])) && rest == old(rest)[1..]
    {
      if rest == [] {
        r := None;
      } else {
        assert rest[0] in rest;
        r, rest := Some((rest[0], db[rest[0]])), rest[1..];
      }
    }
  }

  // ------------------------------------------------------------------- the cursor

  /** A cursor string: one that decodes to a cursor, or not one at all. */
  datatype Token = Encoded(cursor: Cursor) | Malformed

  datatype Result<+T> = Ok(value: T) | BadCursor

  function EncodeCursor(c: Cursor): Token {
    Encoded(c)
  }

  function DecodeCursor(s: Token): Result<Cursor> {
    match s
    case Malformed => BadCursor
    case Encoded(c) => if c.v != 1 then BadCursor else Ok(c)
  }

  // --------------------------------------------------------- what a page should be

  /** The keys that start with `p`, in order. */
  function Under(keys: seq<Bytes>, p: Bytes): seq<Bytes> {
    if keys == [] then [] else if p <= keys[0] then [keys[0]] + Under(keys[1..], p) else Under(keys[1..], p)
  }

  /** The keys strictly above `k`, in order. */
  function Above(keys: seq<Bytes>, k: Bytes): seq<Bytes> {
    if keys == [] then [] else if LexLess(k, keys[0]) then [keys[0]] + Above(keys[1..], k) else Above(keys[1..], k)
  }

  /** All keys under a symbol's prefix. */
  function SymbolKeys(db: Db, symbol: Bytes): seq<Bytes> {
    Under(SortedKeys(db), Prefix(symbol))
  }

  function Values(db: Db, keys: seq<Bytes>): (r: seq<Trade>)
    requires forall k :: k in keys ==> k in db
    ensures |r| == |keys|
  {
    if keys == [] then [] else [db[keys[0]]] + Values(db, keys[1..])
  }

  datatype Page = Page(items: seq<Trade>, next: Option<Token>)

  /** The first `limit` of the trades listed, and a cursor to the last of them if
      there are more. */
  function PageOf(trades: seq<Trade>, limit: nat): Page {
    if |trades| <= limit then Page(trades, None)
    else if limit == 0 then Page([], None)
    else Page(trades[..limit], Some(EncodeCursor(CursorFromTrade(trades[limit - 1]))))
  }

  /** How many items a page has room for: the largest limit overflows and leaves none. */
  function Room(limit: u64): nat {
    if limit + 1 == U64_MODULUS then 0 else limit
  }

  lemma {:induction false} UnderMembers(keys: seq<Bytes>, p: Bytes)
    ensures forall k :: k in Under(keys, p) <==> k in keys && p <= k
  {
    if keys != [] {
      UnderMembers(keys[1..], p);
    }
  }

  lemma {:induction false} AboveMembers(keys: seq<Bytes>, a: Bytes)
    ensures forall k :: k in Above(keys, a) <==> k in keys && LexLess(a, k)
  {
    if keys != [] {
      AboveMembers(keys[1..], a);
    }
  }

  /** What one page request returns, in terms of the keys under the prefix only. */
  function PageSpec(db: Db, symbol: Bytes, after: Option<Token>, limit: nat): Result<Page> {
    UnderMembers(SortedKeys(db), Prefix(symbol));
    match after
    case None => Ok(PageOf(Values(db, SymbolKeys(db, symbol)), limit))
    case Some(token) =>
      match DecodeCursor(token)
      case BadCursor => BadCursor
      case Ok(c) =>
        var key := KeyFromCursor(symbol, c);
        AboveMembers(SymbolKeys(db, symbol), key);
        if key in db then Ok(PageOf(Values(db, Above(SymbolKeys(db, symbol), key)), limit)) else BadCursor
  }

  // ------------------------------------------------- the scan stays in the prefix

  /** From the first key at or above the prefix on, the keys under the prefix come
      first and without a gap. */
  lemma UnderStopsAtFirst(keys: seq<Bytes>, p: Bytes, from: Bytes)
    requires Ascending(Lex(), keys) && p <= from
    requires forall k :: k in keys ==> !LexLess(k, from)
    ensures keys == [] || !(p <= keys[0]) ==> Under(keys, p) == []
    ensures keys != [] && p <= keys[0] ==> Under(keys, p) == [keys[0]] + Under(keys[1..], p)
  {
    if keys != [] && !(p <= keys[0]) {
      assert keys[0] in keys;
      forall k | k in keys ensures !(p <= k) {
        if p <= k {
          LexTotal(from, keys[0]);
          assert k == keys[0] || k in keys[1..];
          if from != keys[0] {
            assert LexLess(from, keys[0]) && Lex()(keys[0], k);
            PrefixContiguous(p, from, keys[0], k);
          }
        }
      }
      NoneUnder(keys, p);
    }
  }

  lemma {:induction false} NoneUnder(keys: seq<Bytes>, p: Bytes)
    requires forall k :: k in keys ==> !(p <= k)
    ensures Under(keys, p) == []
  {
    if keys != [] {
      assert keys[0] in keys && forall k :: k in keys[1..] ==> k in keys;
      NoneUnder(keys[1..], p);
    }
  }

  /** Seeking to a key at or above the prefix skips exactly the keys below it. */
  lemma {:induction false} SeekUnder(keys: seq<Bytes>, p: Bytes, from: Bytes)
    requires Ascending(Lex(), keys) && p <= from
    ensures var rest := Seek(keys, from);
      && Ascending(Lex(), rest)
      && (forall k :: k in rest ==> !LexLess(k, from) && k in keys)
      && (from in keys <==> rest != [] && rest[0] == from)
      && (from == p ==> Under(rest, p) == Under(keys, p))
      && (from in keys ==> Under(rest[1..], p) == Above(Under(keys, p), from))
  {
    LexIsOrder();
    if keys == [] {
    } else if LexLess(keys[0], from) {
      SeekUnder(keys[1..], p, from);
      LexIrreflexive(from);
      if from == p && p <= keys[0] {
        PrefixFirst(p, keys[0]);
      }
      if LexLess(from, keys[0]) {
        LexTransitive(from, keys[0], from);
      }
    } else {
      forall k | k in keys ensures !LexLess(k, from) {
        if k != keys[0] {
          assert k in keys[1..] && Lex()(keys[0], k);
          if LexLess(k, from) {
            LexTransitive(keys[0], k, from);
          }
        }
      }
      if from in keys {
        FromIsHead(keys, from);
        AboveAll(Under(keys[1..], p), from, keys, p);
        LexIrreflexive(from);
      }
    }
  }

  lemma FromIsHead(keys: seq<Bytes>, from: Bytes)
    requires Ascending(Lex(), keys) && from in keys && !LexLess(keys[0], from)
    ensures keys[0] == from
  {
    assert forall k :: k in keys ==> k == keys[0] || Lex()(keys[0], k);
  }

  lemma AboveAll(below: seq<Bytes>, from: Bytes, keys: seq<Bytes>, p: Bytes)
    requires Ascending(Lex(), keys) && keys != [] && keys[0] == from && below == Under(keys[1..], p)
    ensures Above(below, from) == below
  {
    UnderMembers(keys[1..], p);
    forall k | k in below ensures LexLess(from, k) {
      assert Lex()(keys[0], k);
    }
    AboveEvery(below, from);
  }

  lemma {:induction false} AboveEvery(keys: seq<Bytes>, a: Bytes)
    requires forall k :: k in keys ==> LexLess(a, k)
    ensures Above(keys, a) == keys
  {
    if keys != [] {
      assert keys[0] in keys && forall k :: k in keys[1..] ==> k in keys;
      AboveEvery(keys[1..], a);
    }
  }

  lemma {:induction false} ValuesAppend(db: Db, a: seq<Bytes>, k: Bytes)
    requires (forall x :: x in a ==> x in db) && k in db
    ensures Values(db, a + [k]) == Values(db, a) + [db[k]]
  {
    if a == [] {
      assert [k][1..] == [] && a + [k] == [k];
    } else {
      assert (a + [k])[1..] == a[1..] + [k];
      ValuesAppend(db, a[1..], k);
    }
  }

  /** Where the scan stands: the keys of `target` read so far, and those to come. */
  ghost predicate Scanning(target: seq<Bytes>, seen: seq<Bytes>, rest: seq<Bytes>, p: Bytes, from: Bytes) {
    && target == seen + Under(rest, p)
    && Ascending(Lex(), rest) && p <= from
    && forall k :: k in rest ==> !LexLess(k, from)
  }

  lemma ScanStep(target: seq<Bytes>, seen: seq<Bytes>, rest: seq<Bytes>, p: Bytes, from: Bytes)
    requires Scanning(target, seen, rest, p, from)
    ensures rest != [] && p <= rest[0] ==> Scanning(target, seen + [rest[0]], rest[1..], p, from)
    ensures rest == [] || !(p <= rest[0]) ==> target == seen
  {
    UnderStopsAtFirst(rest, p, from);
    if rest != [] {
      assert seen + ([rest[0]] + Under(rest[1..], p)) == (seen + [rest[0]]) + Under(rest[1..], p);
    }
  }

  /** The items collected after reading `seen`, with room for `limit` of them. */
  ghost predicate Collected(db: Db, seen: seq<Bytes>, limit: nat, items: seq<Trade>, last: Option<Token>) {
    && (forall k :: k in seen ==> k in db)
    && items == Values(db, if |seen| <= limit then seen else seen[..limit])
    && last == if items == [] then None else Some(EncodeCursor(CursorFromTrade(items[|items| - 1])))
  }

  lemma CollectStep(db: Db, seen: seq<Bytes>, limit: nat, items: seq<Trade>, last: Option<Token>, k: Bytes)
    requires Collected(db, seen, limit, items, last) && k in db
    ensures |items| == if |seen| <= limit then |seen| else limit
    ensures if |seen| < limit
      then Collected(db, seen + [k], limit, items + [db[k]], Some(EncodeCursor(CursorFromTrade(db[k]))))
      else Collected(db, seen + [k], limit, items, last)
  {
    ValuesAppend(db, seen, k);
    if |seen| >= limit {
      assert (seen + [k])[..limit] == if |seen| == limit then seen else seen[..limit];
    }
  }

  lemma {:induction false} ValuesConcat(db: Db, a: seq<Bytes>, b: seq<Bytes>)
    requires forall k :: k in a || k in b ==> k in db
    ensures Values(db, a + b) == Values(db, a) + Values(db, b)
  {
    if a == [] {
      assert a + b == b;
    } else {
      assert (a + b)[1..] == a[1..] + b;
      ValuesConcat(db, a[1..], b);
    }
  }

  lemma CollectEnd(db: Db, target: seq<Bytes>, seen: seq<Bytes>, more: seq<Bytes>, limit: nat,
                   items: seq<Trade>, last: Option<Token>)
    requires (forall k :: k in target ==> k in db) && target == seen + more
    requires Collected(db, seen, limit, items, last) && (more == [] || |seen| > limit)
    ensures PageOf(Values(db, target), limit) == Page(items, if |seen| > limit && items != [] then last else None)
  {
    if |seen| > limit {
      assert target == target[..limit] + target[limit..] && target[..limit] == seen[..limit];
      ValuesConcat(db, target[..limit], target[limit..]);
    } else {
      assert target == seen;
    }
  }

  lemma PageEnd(db: Db, target: seq<Bytes>, seen: seq<Bytes>, more: seq<Bytes>, limit: u64, stop: nat,
                items: seq<Trade>, last: Option<Token>)
    requires (forall k :: k in target ==> k in db) && target == seen + more
    requires Collected(db, seen, limit, items, last)
    requires stop == (limit + 1) % U64_MODULUS && |seen| <= stop && (more == [] || |seen| >= stop)
    ensures PageOf(Values(db, target), Room(limit)) == Page(items, if |seen| > limit && items != [] then last else None)
  {
    if limit + 1 < U64_MODULUS {
      CollectEnd(db, target, seen, more, limit, items, last);
    }
  }

  /** The store without the keys under a symbol's prefix. */
  function Cleared(db: Db, symbol: Bytes): Db {
    map k | k in db && !(Prefix(symbol) <= k) :: db[k]
  }

  lemma DropUnder(db: Db, batch: seq<Bytes>, symbol: Bytes)
    requires forall k :: k in batch <==> k in db && Prefix(symbol) <= k
    ensures db - (set k | k in batch) == Cleared(db, symbol)
    ensures batch == [] ==> db == Cleared(db, symbol)
  {
    if batch == [] {
      assert forall k :: k in db ==> k !in batch;
    }
  }

  /** The look-ahead loop, from where the iterator stands. One is added to the limit in
      64-bit arithmetic, which wraps around. */
  method ReadPage(it: BTreeIterator, prefix: Bytes, limit: u64, ghost target: seq<Bytes>, ghost from: Bytes)
    returns (page: Page)
    requires it.Valid() && Scanning(target, [], it.rest, prefix, from)
    requires forall k :: k in target ==> k in it.db
    modifies it
    ensures page == PageOf(Values(it.db, target), Room(limit))
  {
    var stop := (limit + 1) % U64_MODULUS;
    var items: seq<Trade> := [];
    var lastCursor: Option<Token> := None;
    var read := 0;
    ghost var seen, more := [], target;
    while read < stop
      invariant it.Valid()
      invariant |seen| == read <= stop
      invariant Scanning(target, seen, it.rest, prefix, from) && target == seen + more
      invariant Collected(it.db, seen, limit, items, lastCursor)
      decreases stop - read
    {
      ScanStep(target, seen, it.rest, prefix, from);
      var entry := it.Next();
      if entry.None? || !(prefix <= entry.value.0) {
        more := [];
        break;
      }
      var trade := entry.value.1;
      CollectStep(it.db, seen, limit, items, lastCursor, entry.value.0);
      if |items| < limit {
        lastCursor := Some(EncodeCursor(CursorFromTrade(trade)));
        items := items + [trade];
      }
      read, seen, more := read + 1, seen + [entry.value.0], Under(it.rest, prefix);
    }
    PageEnd(it.db, target, seen, more, limit, stop, items, lastCursor);
    page := Page(items, if read > limit && items != [] then lastCursor else None);
  }

  class Store {
    var db: Db

    ghost predicate Valid()
      reads this
    {
      Consistent(db)
    }

    constructor ()
      ensures Valid() && db == map[]
    {
      db := map[];
    }

    method InsertTrade(trade: Trade)
      requires Valid()
      modifies this
      ensures Valid() && db == old(db)[EncodeKey(trade.symbol, trade) := trade]
    {
      db := db[EncodeKey(trade.symbol, trade) := trade];
    }

    /** One page of a symbol's trades, strictly after the cursor. */
    method PageTradeAsc(symbol: Bytes, after: Option<Token>, limit: u64) returns (r: Result<Page>)
      ensures r == PageSpec(db, symbol, after, Room(limit))
    {
      var it := new BTreeIterator(db);
      var prefix := Prefix(symbol);
      ghost var keys, target, from := SortedKeys(db), SymbolKeys(db, symbol), prefix;
      UnderMembers(keys, prefix);
      if after.Some? {
        var decoded := DecodeCursor(after.value);
        if decoded.BadCursor? {
          return BadCursor;
        }
        var full := KeyFromCursor(symbol, decoded.value);
        SeekUnder(keys, prefix, full);
        it.SeekTo(full);
        var first := it.Next();
        if first.None? || first.value.0 != full {
          return BadCursor;
        }
        AboveMembers(target, full);
        target, from := Above(target, full), full;
      } else {
        SeekUnder(keys, prefix, prefix);
        it.SeekTo(prefix);
      }

      var page := ReadPage(it, prefix, limit, target, from);
      return Ok(page);
    }

    /** Remove every entry under a symbol's prefix. */
    method DeleteTrades(symbol: Bytes)
      requires Valid()
      modifies this
      ensures Valid()
      ensures db == Cleared(old(db), symbol)
    {
      var it := new BTreeIterator(db);
      var prefix := Prefix(symbol);
      ghost var target := SymbolKeys(db, symbol);
      SeekUnder(SortedKeys(db), prefix, prefix);
      UnderMembers(SortedKeys(db), prefix);
      it.SeekTo(prefix);
      var batch: seq<Bytes> := [];
      var entry := it.Next();
      ghost var rest := Seek(SortedKeys(db), prefix);
      while entry.Some? && prefix <= entry.value.0
        invariant it.Valid() && it.db == db && fresh(it)
        invariant entry.None? ==> rest == []
        invariant entry.Some? ==> rest != [] && rest[0] == entry.value.0 && it.rest == rest[1..]
        invariant Scanning(target, batch, rest, prefix, prefix)
        decreases |rest|
      {
        ScanStep(target, batch, rest, prefix, prefix);
        batch, rest := batch + [entry.value.0], rest[1..];
        entry := it.Next();
      }
      ScanStep(target, batch, rest, prefix, prefix);
      DropUnder(db, batch, symbol);
      if batch != [] {
        db := db - (set k | k in batch);
      }
    }
  }
}
