/** One order or two: sending q1 and then q2 has the effect of sending q1 + q2. */
module Splitting {
  import opened Types
  import opened PriceTime
  import opened Levels
  import opened Filling
  import opened Matching

  /** A trade without the taker's id and the time. */
  datatype Fact = Fact(makerId: u128, price: u64, quantity: nat, symbol: seq<u8>)

  function FactOf(t: Trade): Fact {
    Fact(t.makerId, t.price, t.quantity, t.symbol)
  }

  function Facts(ts: seq<Trade>): seq<Fact> {
    if ts == [] then [] else [FactOf(ts[0])] + Facts(ts[1..])
  }

  lemma {:induction false} FactsAppend(a: seq<Trade>, b: seq<Trade>)
    ensures Facts(a + b) == Facts(a) + Facts(b)
  {
    if a == [] {
      assert a + b == b;
    } else {
      assert (a + b)[1..] == a[1..] + b;
      FactsAppend(a[1..], b);
    }
  }

  lemma FactsOne(t: Trade)
    ensures Facts([t]) == [FactOf(t)]
  {
    assert [t][1..] == [];
  }

  /** Same limit and side: the two takers see the same book in the same way. */
  ghost predicate Alike(tk: Taker, tk': Taker) {
    tk.side == tk'.side && tk.limit == tk'.limit
  }

  /** Who the taker is and what the clock says do not matter to the outcome. */
  lemma {:induction false} FillAlike(f: seq<Order>, tk: Taker, tk': Taker, q: u64, k: nat, k': nat)
    requires Alike(tk, tk')
    ensures var r, r' := FillFrom(f, tk, q, k), FillFrom(f, tk', q, k');
      r.book == r'.book && r.left == r'.left && Facts(r.trades) == Facts(r'.trades)
  {
    if f == [] || !MayTake(tk, f[0]) {
    } else if q <= f[0].quantity {
      FactsOne(Take(tk, k, f[0], q));
      FactsOne(Take(tk', k', f[0], q));
    } else {
      var q', n, n' := q - f[0].quantity, k + 1, k' + 1;
      var t, t' := Take(tk, k, f[0], f[0].quantity), Take(tk', k', f[0], f[0].quantity);
      FillAlike(f[1..], tk, tk', q', n, n');
      var s, s' := FillFrom(f[1..], tk, q', n), FillFrom(f[1..], tk', q', n');
      assert FillFrom(f, tk, q, k) == s.After([t]) && FillFrom(f, tk', q, k') == s'.After([t']);
      FactsOne(t);
      FactsOne(t');
      FactsAppend([t], s.trades);
      FactsAppend([t'], s'.trades);
    }
  }

  /** `a` followed by `b` is `c`, except that the last fill of `a` and the first of
      `b` may be two parts of one fill of `c`. */
  ghost predicate JoinsTo(a: seq<Fact>, b: seq<Fact>, c: seq<Fact>) {
    || (a == [] && b == c)
    || (a != [] && c != [] && a[0] == c[0] && JoinsTo(a[1..], b, c[1..]))
    || (|a| == 1 && b != [] && c != [] && TwoParts(a[0], b[0], c[0]) && b[1..] == c[1..])
  }

  ghost predicate TwoParts(x: Fact, y: Fact, z: Fact) {
    && x == z.(quantity := x.quantity) && y == z.(quantity := y.quantity)
    && x.quantity + y.quantity == z.quantity
  }

  lemma JoinCons(t: Fact, a: seq<Fact>, b: seq<Fact>, c: seq<Fact>)
    requires JoinsTo(a, b, c)
    ensures JoinsTo([t] + a, b, [t] + c)
  {
    assert ([t] + a)[1..] == a && ([t] + c)[1..] == c;
  }

  /** The outcome of two fills in a row against the outcome of one. */
  ghost predicate SplitOutcome(r1: Fill, r2: Fill, r: Fill) {
    && r2.book == r.book
    && r1.left + r2.left == r.left
    && JoinsTo(Facts(r1.trades), Facts(r2.trades), Facts(r.trades))
    && (r1.left > 0 ==> r2.trades == [])
  }

  /** The first resting order is partly taken by q1, and q2 finds enough left in it. */
  lemma SplitWithinHead(f: seq<Order>, tk1: Taker, tk2: Taker, tk: Taker, q1: u64, q2: u64, q: u64, k: nat, k': nat)
    requires f != [] && MayTake(tk, f[0]) && Alike(tk1, tk) && Alike(tk2, tk)
    requires 0 < q1 < q <= f[0].quantity && q == q1 + q2
    ensures var r1 := FillFrom(f, tk1, q1, k);
      SplitOutcome(r1, FillFrom(r1.book, tk2, q2, 0), FillFrom(f, tk, q, k'))
  {
    var h := f[0].(quantity := f[0].quantity - q1);
    var g := [h] + f[1..];
    var t1, t2, t := Take(tk1, k, f[0], q1), Take(tk2, 0, h, q2), Take(tk, k', f[0], q);
    assert g[1..] == f[1..] && Cut(g, q2) == Cut(f, q);
    assert FillFrom(f, tk1, q1, k) == Fill([t1], g, 0);
    FactsOne(t1);
    FactsOne(t2);
    FactsOne(t);
  }

  /** The first resting order is partly taken by q1, and q2 goes on behind it. */
  lemma SplitBeyondHead(f: seq<Order>, tk1: Taker, tk2: Taker, tk: Taker, q1: u64, q2: u64, q: u64, k: nat, k': nat)
    requires f != [] && MayTake(tk, f[0]) && Alike(tk1, tk) && Alike(tk2, tk)
    requires 0 < q1 < f[0].quantity < q && q == q1 + q2
    ensures var r1 := FillFrom(f, tk1, q1, k);
      SplitOutcome(r1, FillFrom(r1.book, tk2, q2, 0), FillFrom(f, tk, q, k'))
  {
    var h := f[0].(quantity := f[0].quantity - q1);
    var g := [h] + f[1..];
    var t1, t2, t := Take(tk1, k, f[0], q1), Take(tk2, 0, h, h.quantity), Take(tk, k', f[0], f[0].quantity);
    var q', n := q - f[0].quantity, k' + 1;
    assert g[1..] == f[1..] && q2 - h.quantity == q';
    assert FillFrom(f, tk1, q1, k) == Fill([t1], g, 0);
    FillAlike(f[1..], tk2, tk, q', 1, n);
    var s2, s := FillFrom(f[1..], tk2, q', 1), FillFrom(f[1..], tk, q', n);
    assert FillFrom(g, tk2, q2, 0) == s2.After([t2]);
    assert FillFrom(f, tk, q, k') == s.After([t]);
    FactsOne(t1);
    FactsOne(t2);
    FactsOne(t);
    FactsAppend([t2], s2.trades);
    FactsAppend([t], s.trades);
    JoinHead(FactOf(t1), FactOf(t2), FactOf(t), Facts(s.trades));
  }

  lemma JoinHead(x: Fact, y: Fact, z: Fact, rest: seq<Fact>)
    requires TwoParts(x, y, z)
    ensures JoinsTo([x], [y] + rest, [z] + rest)
  {
    assert ([y] + rest)[1..] == rest == ([z] + rest)[1..];
  }

  lemma {:induction false} SplitFill(f: seq<Order>, tk1: Taker, tk2: Taker, tk: Taker, q1: u64, q2: u64, q: u64,
                                     k: nat, k': nat)
    requires Alike(tk1, tk) && Alike(tk2, tk)
    requires q1 > 0 && q2 > 0 && q == q1 + q2
    ensures var r1 := FillFrom(f, tk1, q1, k);
      SplitOutcome(r1, FillFrom(r1.book, tk2, q2, 0), FillFrom(f, tk, q, k'))
  {
    if f == [] || !MayTake(tk, f[0]) {
    } else if q1 < f[0].quantity {
      if q <= f[0].quantity {
        SplitWithinHead(f, tk1, tk2, tk, q1, q2, q, k, k');
      } else {
        SplitBeyondHead(f, tk1, tk2, tk, q1, q2, q, k, k');
      }
    } else {
      var t1, t := Take(tk1, k, f[0], f[0].quantity), Take(tk, k', f[0], f[0].quantity);
      var q', n, n' := q - f[0].quantity, k + 1, k' + 1;
      var s := FillFrom(f[1..], tk, q', n');
      assert FillFrom(f, tk, q, k') == s.After([t]);
      FactsOne(t1);
      FactsOne(t);
      FactsAppend([t], s.trades);
      assert FactOf(t1) == FactOf(t);
      if q1 == f[0].quantity {
        assert q' == q2 && FillFrom(f, tk1, q1, k) == Fill([t1], f[1..], 0);
        FillAlike(f[1..], tk2, tk, q2, 0, n');
      } else {
        var p := q1 - f[0].quantity;
        var s1 := FillFrom(f[1..], tk1, p, n);
        assert FillFrom(f, tk1, q1, k) == s1.After([t1]);
        SplitFill(f[1..], tk1, tk2, tk, p, q2, q', n, n');
        var s2 := FillFrom(s1.book, tk2, q2, 0);
        FactsAppend([t1], s1.trades);
        JoinCons(FactOf(t), Facts(s1.trades), Facts(s2.trades), Facts(s.trades));
      }
    }
  }

  function MakerTotal(fs: seq<Fact>, id: u128): nat {
    if fs == [] then 0 else (if fs[0].makerId == id then fs[0].quantity else 0) + MakerTotal(fs[1..], id)
  }

  lemma {:induction false} MakerTotalOfFacts(ts: seq<Trade>, id: u128)
    ensures MakerTotal(Facts(ts), id) == MakerQty(ts, id)
  {
    if ts != [] {
      MakerTotalOfFacts(ts[1..], id);
    }
  }

  /** Joining keeps every maker's total. */
  lemma {:induction false} JoinTotals(a: seq<Fact>, b: seq<Fact>, c: seq<Fact>, id: u128)
    requires JoinsTo(a, b, c)
    ensures MakerTotal(a, id) + MakerTotal(b, id) == MakerTotal(c, id)
  {
    if a != [] && a[0] == c[0] && JoinsTo(a[1..], b, c[1..]) {
      JoinTotals(a[1..], b, c[1..], id);
    }
  }

  // --------------------------------------------------------------- whole orders

  /** Two orders that ask for the same thing, perhaps for different quantities. */
  ghost predicate SameTerms(o: Order, o': Order) {
    o.side == o'.side && o.orderType == o'.orderType && o.price == o'.price
  }

  /** What an order that stopped with `left` adds to its own level. */
  function Rested(o: Order, left: u64): seq<Order> {
    if Rests(o, left) then [o.(quantity := left)] else []
  }

  lemma LevelAfterMatch(b: Book, o: Order, clock: Clock, p: u64)
    requires ValidBook(b)
    ensures var m := Match(b, o, clock);
      Level(m.book.On(o.side), p) ==
      Level(b.On(o.side), p) + (if p == o.Price() then Rested(o, m.left) else [])
  {
    var m := Match(b, o, clock);
    if Rests(o, m.left) {
      LevelRest(o.side, b.On(o.side), o.(quantity := m.left), p);
    }
  }

  /** The side that is hit, and every maker's total, come out as for the single
      order; the trades differ by cutting at most one fill in two. If nothing rests
      (a market order, a limit order without a price, or one that was filled) the
      whole book comes out the same. */
  lemma SplitOrder(b: Book, o1: Order, o2: Order, o: Order, c1: Clock, c2: Clock, c: Clock, id: u128)
    requires SameTerms(o1, o) && SameTerms(o2, o)
    requires o1.quantity > 0 && o2.quantity > 0 && o.quantity == o1.quantity + o2.quantity
    ensures var m1 := Match(b, o1, c1);
      var m2, m := Match(m1.book, o2, c2), Match(b, o, c);
      && JoinsTo(Facts(m1.trades), Facts(m2.trades), Facts(m.trades))
      && MakerQty(m1.trades, id) + MakerQty(m2.trades, id) == MakerQty(m.trades, id)
      && m1.left + m2.left == m.left
      && m2.book.On(o.side.Opposite()) == m.book.On(o.side.Opposite())
      && (!Rests(o, m.left) ==> m2.book == m.book)
  {
    var f, tk1, tk2, tk := b.On(o.side.Opposite()), TakerOf(o1, c1), TakerOf(o2, c2), TakerOf(o, c);
    var r1 := FillFrom(f, tk1, o1.quantity, 0);
    var r2, r := FillFrom(r1.book, tk2, o2.quantity, 0), FillFrom(f, tk, o.quantity, 0);
    SplitFill(f, tk1, tk2, tk, o1.quantity, o2.quantity, o.quantity, 0, 0);
    assert Match(b, o1, c1).book.On(o.side.Opposite()) == r1.book;
    JoinTotals(Facts(r1.trades), Facts(r2.trades), Facts(r.trades), id);
    MakerTotalOfFacts(r1.trades, id);
    MakerTotalOfFacts(r2.trades, id);
    MakerTotalOfFacts(r.trades, id);
  }

  /** What rests: the single order leaves its remainder at the back of its level as
      one entry, the two orders leave the same total there as at most two adjacent
      entries; every other level of that side is untouched. */
  lemma SplitRemainder(b: Book, o1: Order, o2: Order, o: Order, c1: Clock, c2: Clock, c: Clock, p: u64)
    requires ValidBook(b) && SameTerms(o1, o) && SameTerms(o2, o)
    requires o1.quantity > 0 && o2.quantity > 0 && o.quantity == o1.quantity + o2.quantity
    requires !b.Holds(o1.id)
    ensures var m1 := Match(b, o1, c1);
      var m2, m := Match(m1.book, o2, c2), Match(b, o, c);
      var before := Level(b.On(o.side), p);
      && m1.left + m2.left == m.left
      && Level(m.book.On(o.side), p) == before + (if p == o.Price() then Rested(o, m.left) else [])
      && Level(m2.book.On(o.side), p) ==
         before + (if p == o.Price() then Rested(o1, m1.left) + Rested(o2, m2.left) else [])
  {
    var m1 := Match(b, o1, c1);
    SplitOrder(b, o1, o2, o, c1, c2, c, 0);
    LevelAfterMatch(b, o, c, p);
    MatchKeepsBook(b, o1, c1);
    TwoRests(b, m1.book, o1, o2, c1, c2, p);
  }

  lemma TwoRests(b: Book, b1: Book, o1: Order, o2: Order, c1: Clock, c2: Clock, p: u64)
    requires ValidBook(b) && ValidBook(b1) && SameTerms(o1, o2) && b1 == Match(b, o1, c1).book
    ensures Level(Match(b1, o2, c2).book.On(o1.side), p) == Level(b.On(o1.side), p) +
      (if p == o1.Price() then Rested(o1, Match(b, o1, c1).left) + Rested(o2, Match(b1, o2, c2).left) else [])
  {
    LevelAfterMatch(b, o1, c1, p);
    LevelAfterMatch(b1, o2, c2, p);
  }
}
