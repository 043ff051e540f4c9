/** The composite keys of the trade store (`store.rs`): big-endian fields behind a
    symbol prefix, and why their byte order is the order of the trades. */
module Keys {
  import opened Types
  import opened Ordered

  type Bytes = seq<u8>

  const COLON: u8 := 58

  // ------------------------------------------------------------------ big-endian

  function Pow256(w: nat): (r: nat)
    ensures r > 0
  {
    if w == 0 then 1 else 256 * Pow256(w - 1)
  }

  lemma Widths()
    ensures Pow256(8) == 0x1_0000_0000_0000_0000
    ensures Pow256(16) == 0x1_0000_0000_0000_0000_0000_0000_0000_0000
  {
    assert Pow256(4) == 0x1_0000_0000;
    assert Pow256(8) == 0x1_0000_0000_0000_0000;
    assert Pow256(12) == 0x1_0000_0000_0000_0000_0000_0000;
  }

  /** `n` in `w` bytes, most significant first. */
  function BigEndian(n: nat, w: nat): (r: Bytes)
    requires n < Pow256(w)
    ensures |r| == w
  {
    if w == 0 then [] else BigEndian(n / 256, w - 1) + [n % 256]
  }

  function Bytes8(n: u64): (r: Bytes)
    ensures |r| == 8
  {
    Widths();
    BigEndian(n, 8)
  }

  function Bytes16(n: u128): (r: Bytes)
    ensures |r| == 16
  {
    Widths();
    BigEndian(n, 16)
  }

  // ---------------------------------------------------------- lexicographic order

  predicate LexLess(a: Bytes, b: Bytes) {
    b != [] && (a == [] || a[0] < b[0] || (a[0] == b[0] && LexLess(a[1..], b[1..])))
  }

  function Lex(): (Bytes, Bytes) -> bool {
    (a: Bytes, b: Bytes) => LexLess(a, b)
  }

  lemma {:induction false} LexTransitive(a: Bytes, b: Bytes, c: Bytes)
    requires LexLess(a, b) && LexLess(b, c)
    ensures LexLess(a, c)
  {
    if a != [] && a[0] == b[0] == c[0] {
      LexTransitive(a[1..], b[1..], c[1..]);
    }
  }

  lemma {:induction false} LexTotal(a: Bytes, b: Bytes)
    ensures LexLess(a, b) || LexLess(b, a) || a == b
  {
    if a != [] && b != [] && a[0] == b[0] {
      LexTotal(a[1..], b[1..]);
      assert a == [a[0]] + a[1..] && b == [b[0]] + b[1..];
    }
  }

  lemma {:induction false} LexIrreflexive(a: Bytes)
    ensures !LexLess(a, a)
  {
    if a != [] {
      LexIrreflexive(a[1..]);
    }
  }

  lemma LexIsOrder()
    ensures StrictOrder(Lex())
  {
    forall a: Bytes ensures !Lex()(a, a) {
      LexIrreflexive(a);
    }
    forall a: Bytes, b: Bytes, c: Bytes | Lex()(a, b) && Lex()(b, c) ensures Lex()(a, c) {
      LexTransitive(a, b, c);
    }
    forall a: Bytes, b: Bytes | a != b ensures Lex()(a, b) || Lex()(b, a) {
      LexTotal(a, b);
    }
  }

  /** Fields of equal width compare field by field. */
  lemma {:induction false} LexConcat(a: Bytes, b: Bytes, c: Bytes, d: Bytes)
    requires |a| == |b|
    ensures LexLess(a + c, b + d) <==> LexLess(a, b) || (a == b && LexLess(c, d))
  {
    if a == [] {
      assert a + c == c && b + d == d;
    } else {
      assert (a + c)[1..] == a[1..] + c && (b + d)[1..] == b[1..] + d;
      LexConcat(a[1..], b[1..], c, d);
      assert a == [a[0]] + a[1..] && b == [b[0]] + b[1..];
    }
  }

  /** Big-endian byte order is numeric order. */
  lemma {:induction false} BigEndianOrder(a: nat, b: nat, w: nat)
    requires a < Pow256(w) && b < Pow256(w)
    ensures LexLess(BigEndian(a, w), BigEndian(b, w)) <==> a < b
    ensures BigEndian(a, w) == BigEndian(b, w) <==> a == b
  {
    if w > 0 {
      var x, y := BigEndian(a / 256, w - 1), BigEndian(b / 256, w - 1);
      BigEndianOrder(a / 256, b / 256, w - 1);
      LexConcat(x, y, [a % 256], [b % 256]);
      assert (x + [a % 256])[..w - 1] == x && (y + [b % 256])[..w - 1] == y;
      assert (x + [a % 256])[w - 1] == a % 256 && (y + [b % 256])[w - 1] == b % 256;
    }
  }

  // ------------------------------------------------------------------- the layout

  function Prefix(symbol: Bytes): Bytes {
    symbol + [COLON]
  }

  function EncodeKey(symbol: Bytes, t: Trade): Bytes {
    Prefix(symbol) + Bytes16(t.timestamp) + Bytes16(t.makerId) + Bytes16(t.takerId)
      + Bytes8(t.price) + Bytes8(t.quantity)
  }

  /** The content of a paging cursor; `v` is its schema version. */
  datatype Cursor = Cursor(v: u8, tsNanos: u128, makerId: u128, takerId: u128, price: u64, quantity: u64)

  function CursorFromTrade(t: Trade): Cursor {
    Cursor(1, t.timestamp, t.makerId, t.takerId, t.price, t.quantity)
  }

  function KeyFromCursor(symbol: Bytes, c: Cursor): Bytes {
    Prefix(symbol) + Bytes16(c.tsNanos) + Bytes16(c.makerId) + Bytes16(c.takerId)
      + Bytes8(c.price) + Bytes8(c.quantity)
  }

  /** The order of trades: time, then maker, taker, price and quantity. */
  predicate TradeLess(t: Trade, u: Trade) {
    if t.timestamp != u.timestamp then t.timestamp < u.timestamp
    else if t.makerId != u.makerId then t.makerId < u.makerId
    else if t.takerId != u.takerId then t.takerId < u.takerId
    else if t.price != u.price then t.price < u.price
    else t.quantity < u.quantity
  }

  function Suffix(t: Trade): (r: Bytes)
    ensures |r| == 64
  {
    Bytes16(t.timestamp) + (Bytes16(t.makerId) + (Bytes16(t.takerId) + (Bytes8(t.price) + Bytes8(t.quantity))))
  }

  lemma KeyIsPrefixAndSuffix(symbol: Bytes, t: Trade)
    ensures EncodeKey(symbol, t) == Prefix(symbol) + Suffix(t)
  {
  }

  lemma FieldOrder(w: nat, a: nat, b: nat, c: Bytes, d: Bytes)
    requires a < Pow256(w) && b < Pow256(w)
    ensures LexLess(BigEndian(a, w) + c, BigEndian(b, w) + d) <==> if a != b then a < b else LexLess(c, d)
  {
    LexConcat(BigEndian(a, w), BigEndian(b, w), c, d);
    BigEndianOrder(a, b, w);
    LexIrreflexive(BigEndian(a, w));
  }

  /** Within a symbol, byte order of keys is exactly the order of the trades. */
  lemma KeyOrder(symbol: Bytes, t: Trade, u: Trade)
    ensures LexLess(EncodeKey(symbol, t), EncodeKey(symbol, u)) <==> TradeLess(t, u)
  {
    Widths();
    KeyIsPrefixAndSuffix(symbol, t);
    KeyIsPrefixAndSuffix(symbol, u);
    LexConcat(Prefix(symbol), Prefix(symbol), Suffix(t), Suffix(u));
    LexIrreflexive(Prefix(symbol));
    var t5, u5 := Bytes8(t.quantity), Bytes8(u.quantity);
    var t4, u4 := Bytes8(t.price) + t5, Bytes8(u.price) + u5;
    var t3, u3 := Bytes16(t.takerId) + t4, Bytes16(u.takerId) + u4;
    var t2, u2 := Bytes16(t.makerId) + t3, Bytes16(u.makerId) + u3;
    FieldOrder(16, t.timestamp, u.timestamp, t2, u2);
    FieldOrder(16, t.makerId, u.makerId, t3, u3);
    FieldOrder(16, t.takerId, u.takerId, t4, u4);
    FieldOrder(8, t.price, u.price, t5, u5);
    BigEndianOrder(t.quantity, u.quantity, 8);
  }

  // ---------------------------------------------------------------------- prefixes

  predicate ColonFree(symbol: Bytes) {
    COLON !in symbol
  }

  /** For a symbol `s` without a colon, a stored key falls under the prefix of `s` if
      and only if it is a key of `s`, or of a symbol that itself begins with the
      prefix of `s` and so contains a colon. */
  lemma PrefixExact(s: Bytes, t: Trade)
    requires ColonFree(s)
    ensures Prefix(s) <= EncodeKey(t.symbol, t) <==> t.symbol == s || Prefix(s) <= t.symbol
  {
    KeyIsPrefixAndSuffix(t.symbol, t);
    PrefixSplit(s, t.symbol, Suffix(t));
  }

  lemma {:induction false} PrefixSplit(s: Bytes, symbol: Bytes, suffix: Bytes)
    requires ColonFree(s)
    ensures Prefix(s) <= Prefix(symbol) + suffix <==> symbol == s || Prefix(s) <= symbol
  {
    var key := Prefix(symbol) + suffix;
    if s == [] {
      assert Prefix(s) == [COLON];
      if symbol != [] {
        assert key[0] == symbol[0];
      } else {
        assert key[0] == COLON;
      }
    } else if symbol == [] {
      assert key[0] == COLON && Prefix(s)[0] == s[0];
    } else {
      PrefixSplit(s[1..], symbol[1..], suffix);
      assert Prefix(s) == [s[0]] + Prefix(s[1..]);
      assert key == [symbol[0]] + (Prefix(symbol[1..]) + suffix);
      assert s == [s[0]] + s[1..] && symbol == [symbol[0]] + symbol[1..];
      ConsPrefix(s[0], Prefix(s[1..]), symbol[0], Prefix(symbol[1..]) + suffix);
      ConsPrefix(s[0], Prefix(s[1..]), symbol[0], symbol[1..]);
    }
  }

  lemma ConsPrefix(a: u8, p: Bytes, b: u8, q: Bytes)
    ensures [a] + p <= [b] + q <==> a == b && p <= q
  {
    if [a] + p <= [b] + q {
      assert ([a] + p)[0] == ([b] + q)[0];
      assert forall i :: 0 <= i < |p| ==> p[i] == ([a] + p)[i + 1] && q[i] == ([b] + q)[i + 1];
    }
  }

  /** Keys that fall under one prefix are not split by any other key, and none of
      them is before the prefix itself. */
  lemma {:induction false} PrefixContiguous(p: Bytes, a: Bytes, b: Bytes, c: Bytes)
    requires p <= a && p <= c && LexLess(a, b) && LexLess(b, c)
    ensures p <= b
  {
    if p != [] {
      assert a[0] == p[0] == c[0];
      assert b != [] && b[0] == p[0];
      PrefixContiguous(p[1..], a[1..], b[1..], c[1..]);
      assert p == [p[0]] + p[1..] && b == [b[0]] + b[1..];
    }
  }

  lemma {:induction false} PrefixFirst(p: Bytes, a: Bytes)
    requires p <= a
    ensures !LexLess(a, p)
  {
    if p != [] {
      assert p[1..] <= a[1..];
      PrefixFirst(p[1..], a[1..]);
    }
  }

  /** Different trades have different keys, whatever their symbols: the fields have
      a fixed width, so the length of a key gives away the length of the symbol. */
  lemma KeyInjective(t: Trade, u: Trade)
    requires EncodeKey(t.symbol, t) == EncodeKey(u.symbol, u)
    ensures t == u
  {
    KeyIsPrefixAndSuffix(t.symbol, t);
    KeyIsPrefixAndSuffix(u.symbol, u);
    assert EncodeKey(t.symbol, t)[..|t.symbol|] == t.symbol;
    assert EncodeKey(u.symbol, u)[..|u.symbol|] == u.symbol;
    KeyOrder(t.symbol, t, u);
    KeyOrder(t.symbol, u, t);
    LexIrreflexive(EncodeKey(t.symbol, t));
  }

  /** The codes of all pairs are free of colons and tell the pairs apart. */
  lemma PairCodes(p: Pair, q: Pair)
    ensures ColonFree(p.Code())
    ensures p.Code() == q.Code() <==> p == q
  {
    assert p.Code()[..3] == p.base.Letters() && p.Code()[4..] == p.quote.Letters();
    assert q.Code()[..3] == q.base.Letters() && q.Code()[4..] == q.quote.Letters();
    assert p.base.Letters()[0] == q.base.Letters()[0] ==> p.base == q.base;
    assert p.quote.Letters()[0] == q.quote.Letters()[0] ==> p.quote == q.quote;
  }

  /** A code is the bytes of this ASCII text. */
  predicate Prints(code: Bytes, text: string) {
    |code| == |text| && forall i :: 0 <= i < |code| ==> code[i] == text[i] as int
  }

  lemma PrintedCodes()
    ensures Prints(Pair(BTC, USD).Code(), "BTC-USD") && Prints(Pair(ETH, USD).Code(), "ETH-USD")
  {
  }

  // ---------------------------------------------------------------------- decoding

  /** The number that bytes stand for, most significant first. */
  function FromBytes(b: Bytes): nat {
    if b == [] then 0 else 256 * FromBytes(b[..|b| - 1]) + b[|b| - 1]
  }

  lemma {:induction false} Decodes(n: nat, w: nat)
    requires n < Pow256(w)
    ensures FromBytes(BigEndian(n, w)) == n
  {
    if w > 0 {
      Decodes(n / 256, w - 1);
      assert BigEndian(n, w)[..w - 1] == BigEndian(n / 256, w - 1);
    }
  }

  lemma SuffixDecodes(t: Trade)
    ensures FromBytes(Suffix(t)[..16]) == t.timestamp
    ensures FromBytes(Suffix(t)[16..32]) == t.makerId
    ensures FromBytes(Suffix(t)[32..48]) == t.takerId
    ensures FromBytes(Suffix(t)[48..56]) == t.price
    ensures FromBytes(Suffix(t)[56..64]) == t.quantity
  {
    Widths();
    Decodes(t.timestamp, 16);
    Decodes(t.makerId, 16);
    Decodes(t.takerId, 16);
    Decodes(t.price, 8);
    Decodes(t.quantity, 8);
    assert Suffix(t)[..16] == Bytes16(t.timestamp);
    assert Suffix(t)[16..32] == Bytes16(t.makerId);
    assert Suffix(t)[32..48] == Bytes16(t.takerId);
    assert Suffix(t)[48..56] == Bytes8(t.price);
    assert Suffix(t)[56..64] == Bytes8(t.quantity);
  }

  /** The round trip of keys: the symbol, a colon, and then 16 bytes for the time, 16 for
      the maker, 16 for the taker, 8 for the price and 8 for the quantity. */
  lemma KeyDecodes(t: Trade)
    ensures var key, n := EncodeKey(t.symbol, t), |t.symbol|;
      && |key| == n + 65 && key[..n] == t.symbol && key[n] == ':' as int
      && FromBytes(key[n + 1..n + 17]) == t.timestamp
      && FromBytes(key[n + 17..n + 33]) == t.makerId
      && FromBytes(key[n + 33..n + 49]) == t.takerId
      && FromBytes(key[n + 49..n + 57]) == t.price
      && FromBytes(key[n + 57..n + 65]) == t.quantity
  {
    var key, n, suffix := EncodeKey(t.symbol, t), |t.symbol|, Suffix(t);
    KeyIsPrefixAndSuffix(t.symbol, t);
    SuffixDecodes(t);
    assert key[n + 1..n + 17] == suffix[..16];
    assert key[n + 17..n + 33] == suffix[16..32];
    assert key[n + 33..n + 49] == suffix[32..48];
    assert key[n + 49..n + 57] == suffix[48..56];
    assert key[n + 57..n + 65] == suffix[56..64];
  }
}
