/** What one fill does to one side of the book: a declarative description that
    admits exactly one outcome, and the quantities it conserves. */
module Filling {
  import opened Types
  import opened PriceTime

  function Total(ts: seq<Trade>): nat {
    if ts == [] then 0 else ts[0].quantity + Total(ts[1..])
  }

  /** Quantity an order has given as the resting side of trades. */
  function MakerQty(ts: seq<Trade>, id: u128): nat {
    if ts == [] then 0 else (if ts[0].makerId == id then ts[0].quantity else 0) + MakerQty(ts[1..], id)
  }

  /** Quantity an order has taken as the incoming side of trades. */
  function TakerQty(ts: seq<Trade>, id: u128): nat {
    if ts == [] then 0 else (if ts[0].takerId == id then ts[0].quantity else 0) + TakerQty(ts[1..], id)
  }

  /** Quantity listed under an id. */
  function Qty(f: seq<Order>, id: u128): nat {
    if f == [] then 0 else (if f[0].id == id then f[0].quantity else 0) + Qty(f[1..], id)
  }

  function Depth(f: seq<Order>): nat {
    if f == [] then 0 else f[0].quantity + Depth(f[1..])
  }

  ghost predicate AllPositive(f: seq<Order>) {
    forall o :: o in f ==> o.quantity > 0
  }

  lemma TailPositive(f: seq<Order>)
    requires AllPositive(f) && f != []
    ensures f[0].quantity > 0 && AllPositive(f[1..])
  {
    assert f[0] in f;
    assert forall o :: o in f[1..] ==> o in f;
  }

  ghost predicate MayTake(tk: Taker, o: Order) {
    Within(tk.side, tk.limit, o.Price())
  }

  // ------------------------------------------------- the declarative description

  /** A trade with this maker, at its price, for no more than it offers. */
  ghost predicate Takes(tk: Taker, k: nat, maker: Order, t: Trade) {
    && t == Take(tk, k, maker, t.quantity)
    && 0 < t.quantity <= maker.quantity
    && MayTake(tk, maker)
  }

  /** Trade `i` is with the `i`-th order of the side. */
  ghost predicate InPriority(f: seq<Order>, tk: Taker, k: nat, ts: seq<Trade>) {
    |ts| <= |f| && forall i :: 0 <= i < |ts| ==> Takes(tk, k + i, f[i], ts[i])
  }

  ghost predicate FullyTaken(f: seq<Order>, ts: seq<Trade>, i: nat)
    requires i < |ts| <= |f|
  {
    ts[i].quantity == f[i].quantity
  }

  ghost predicate LastFull(f: seq<Order>, ts: seq<Trade>)
    requires |ts| <= |f|
  {
    ts == [] || FullyTaken(f, ts, |ts| - 1)
  }

  ghost predicate AllButLastFull(f: seq<Order>, ts: seq<Trade>)
    requires |ts| <= |f|
  {
    forall i :: 0 <= i < |ts| - 1 ==> FullyTaken(f, ts, i)
  }

  /** The side without the orders taken, the last one reduced if it was only
      partly taken. */
  ghost function Residue(f: seq<Order>, ts: seq<Trade>): seq<Order>
    requires |ts| <= |f|
    requires ts != [] ==> ts[|ts| - 1].quantity <= f[|ts| - 1].quantity
  {
    var n := |ts|;
    if LastFull(f, ts) then f[n..]
    else [f[n - 1].(quantity := f[n - 1].quantity - ts[n - 1].quantity)] + f[n..]
  }

  /** The outcome of a fill, with no recursion over the side: trades follow
      priority, every maker but the last is used up, nothing is created or lost,
      and quantity is left only when no eligible order is. */
  ghost predicate Greedy(f: seq<Order>, tk: Taker, q: u64, k: nat, r: Fill) {
    && InPriority(f, tk, k, r.trades)
    && AllButLastFull(f, r.trades)
    && Total(r.trades) + r.left == q
    && r.book == Residue(f, r.trades)
    && (r.left > 0 ==> LastFull(f, r.trades) && (|r.trades| == |f| || !MayTake(tk, f[|r.trades|])))
  }

  lemma PriorityCons(f: seq<Order>, tk: Taker, k: nat, t: Trade, ts: seq<Trade>)
    requires f != [] && Takes(tk, k, f[0], t) && InPriority(f[1..], tk, k + 1, ts)
    ensures InPriority(f, tk, k, [t] + ts)
  {
    forall i | 0 <= i < |[t] + ts| ensures Takes(tk, k + i, f[i], ([t] + ts)[i]) {
      if i > 0 {
        assert Takes(tk, k + 1 + (i - 1), f[1..][i - 1], ts[i - 1]);
      }
    }
  }

  lemma PriorityTail(f: seq<Order>, tk: Taker, k: nat, ts: seq<Trade>)
    requires InPriority(f, tk, k, ts) && ts != []
    ensures Takes(tk, k, f[0], ts[0]) && InPriority(f[1..], tk, k + 1, ts[1..])
  {
    assert Takes(tk, k + 0, f[0], ts[0]);
    forall i | 0 <= i < |ts[1..]| ensures Takes(tk, k + 1 + i, f[1..][i], ts[1..][i]) {
      assert Takes(tk, k + (i + 1), f[i + 1], ts[i + 1]);
    }
  }

  /** A maker used up in front changes nothing about what happens behind it. */
  lemma ResidueCons(f: seq<Order>, t: Trade, ts: seq<Trade>)
    requires f != [] && |ts| < |f| && t.quantity == f[0].quantity
    requires ts != [] ==> ts[|ts| - 1].quantity <= f[|ts|].quantity
    ensures LastFull(f, [t] + ts) == LastFull(f[1..], ts)
    ensures Residue(f, [t] + ts) == Residue(f[1..], ts)
  {
    assert f[1..][|ts|..] == f[|ts| + 1..];
  }

  lemma FullCons(f: seq<Order>, t: Trade, ts: seq<Trade>)
    requires f != [] && |ts| < |f| && t.quantity == f[0].quantity
    ensures AllButLastFull(f, [t] + ts) == AllButLastFull(f[1..], ts)
  {
    var all := [t] + ts;
    if AllButLastFull(f[1..], ts) {
      forall i | 0 <= i < |all| - 1 ensures FullyTaken(f, all, i) {
        assert i > 0 ==> FullyTaken(f[1..], ts, i - 1);
      }
    }
    if AllButLastFull(f, all) {
      forall i | 0 <= i < |ts| - 1 ensures FullyTaken(f[1..], ts, i) {
        assert FullyTaken(f, all, i + 1);
      }
    }
  }

  lemma FillStops(f: seq<Order>, tk: Taker, q: u64, k: nat)
    requires q > 0 && (f == [] || !MayTake(tk, f[0]) || q <= f[0].quantity)
    ensures Greedy(f, tk, q, k, FillFrom(f, tk, q, k))
  {
    if f != [] && MayTake(tk, f[0]) {
      var trade := Take(tk, k, f[0], q);
      assert [trade][1..] == [];
      assert Takes(tk, k, f[0], trade);
    } else {
      assert f[0..] == f;
    }
  }

  lemma GreedyCons(f: seq<Order>, tk: Taker, q: u64, k: nat, t: Trade, s: Fill, r: Fill)
    requires f != [] && Takes(tk, k, f[0], t) && t.quantity == f[0].quantity < q
    requires r == s.After([t])
    ensures Greedy(f, tk, q, k, r) <==> Greedy(f[1..], tk, q - t.quantity, k + 1, s)
  {
    var ts := r.trades;
    assert ts[1..] == s.trades;
    if InPriority(f, tk, k, ts) {
      PriorityTail(f, tk, k, ts);
    }
    if InPriority(f[1..], tk, k + 1, s.trades) {
      PriorityCons(f, tk, k, t, s.trades);
      assert s.trades != [] ==> Takes(tk, k + 1 + (|s.trades| - 1), f[1..][|s.trades| - 1], s.trades[|s.trades| - 1]);
      ResidueCons(f, t, s.trades);
      FullCons(f, t, s.trades);
    }
  }

  lemma {:induction false} FillIsGreedy(f: seq<Order>, tk: Taker, q: u64, k: nat)
    requires q > 0 && AllPositive(f)
    ensures Greedy(f, tk, q, k, FillFrom(f, tk, q, k))
  {
    if f == [] || !MayTake(tk, f[0]) || q <= f[0].quantity {
      FillStops(f, tk, q, k);
    } else {
      TailPositive(f);
      var t := Take(tk, k, f[0], f[0].quantity);
      FillIsGreedy(f[1..], tk, q - t.quantity, k + 1);
      GreedyCons(f, tk, q, k, t, FillFrom(f[1..], tk, q - t.quantity, k + 1), FillFrom(f, tk, q, k));
    }
  }

  lemma {:induction false} TotalAtLeastHead(ts: seq<Trade>, i: nat)
    requires i < |ts|
    ensures Total(ts) >= ts[i].quantity
    ensures i > 0 ==> Total(ts) >= ts[0].quantity + ts[i].quantity
  {
    if i > 0 {
      TotalAtLeastHead(ts[1..], i - 1);
    }
  }

  /** The first trade of any outcome that meets the description. */
  lemma GreedyHead(f: seq<Order>, tk: Taker, q: u64, k: nat, r: Fill)
    requires Greedy(f, tk, q, k, r) && r.trades != []
    ensures f != [] && Takes(tk, k, f[0], r.trades[0])
    ensures r.trades[0].quantity == if q <= f[0].quantity then q else f[0].quantity
    ensures q == r.trades[0].quantity ==> |r.trades| == 1 && r.left == 0
  {
    var ts := r.trades;
    PriorityTail(f, tk, k, ts);
    TotalAtLeastHead(ts, 0);
    if |ts| > 1 {
      TotalAtLeastHead(ts, 1);
      assert FullyTaken(f, ts, 0);
      assert Takes(tk, k + 1, f[1], ts[1]);
    } else {
      assert ts == [ts[0]] && Total(ts) == ts[0].quantity;
    }
  }

  lemma GreedyStops(f: seq<Order>, tk: Taker, q: u64, k: nat, r: Fill)
    requires q > 0 && Greedy(f, tk, q, k, r)
    requires r.trades == [] || r.trades[0].quantity == q
    ensures r == FillFrom(f, tk, q, k)
  {
    if r.trades == [] {
      assert r.book == f[0..] == f;
    } else {
      GreedyHead(f, tk, q, k, r);
      assert MayTake(tk, f[0]);
      assert r == Fill([r.trades[0]], Residue(f, [r.trades[0]]), 0);
    }
  }

  lemma GreedyPeel(f: seq<Order>, tk: Taker, q: u64, k: nat, r: Fill) returns (s: Fill, q': u64, n: nat)
    requires Greedy(f, tk, q, k, r) && r.trades != [] && r.trades[0].quantity != q
    ensures f != [] && MayTake(tk, f[0]) && f[0].quantity < q
    ensures q' == q - f[0].quantity && n == k + 1
    ensures r == s.After([Take(tk, k, f[0], f[0].quantity)])
    ensures Greedy(f[1..], tk, q', n, s)
  {
    GreedyHead(f, tk, q, k, r);
    s := Fill(r.trades[1..], r.book, r.left);
    GreedyCons(f, tk, q, k, r.trades[0], s, r);
    q', n := q - f[0].quantity, k + 1;
  }

  lemma FillStep(f: seq<Order>, tk: Taker, q: u64, k: nat, q': u64, n: nat)
    requires f != [] && MayTake(tk, f[0]) && q > f[0].quantity && q' == q - f[0].quantity && n == k + 1
    ensures FillFrom(f, tk, q, k) == FillFrom(f[1..], tk, q', n).After([Take(tk, k, f[0], f[0].quantity)])
  {
  }

  /** Only the fill meets the description. */
  lemma {:induction false} GreedyIsUnique(f: seq<Order>, tk: Taker, q: u64, k: nat, r: Fill)
    requires q > 0 && AllPositive(f) && Greedy(f, tk, q, k, r)
    ensures r == FillFrom(f, tk, q, k)
  {
    if r.trades == [] || r.trades[0].quantity == q {
      GreedyStops(f, tk, q, k, r);
    } else {
      var s, q', n := GreedyPeel(f, tk, q, k, r);
      TailPositive(f);
      GreedyIsUnique(f[1..], tk, q', n, s);
      FillStep(f, tk, q, k, q', n);
    }
  }

  /** A fill is the one outcome that meets the description. */
  lemma FillExactly(f: seq<Order>, tk: Taker, q: u64, k: nat, r: Fill)
    requires q > 0 && AllPositive(f)
    ensures r == FillFrom(f, tk, q, k) <==> Greedy(f, tk, q, k, r)
  {
    FillIsGreedy(f, tk, q, k);
    if Greedy(f, tk, q, k, r) {
      GreedyIsUnique(f, tk, q, k, r);
    }
  }
}
