/** Who is served, and at what total price: price-time priority in closed form and
    the optimality of taking the best prices first. */
module Priority {
  import opened Types
  import opened PriceTime
  import opened Levels
  import opened Filling
  import opened Matching

  // ------------------------------------------------------- price-time priority

  function Clamp(x: int, hi: nat): nat {
    if x <= 0 then 0 else if x <= hi then x else hi
  }

  /** What the order at position `i` gives to a taker of `q`: whatever the orders
      in front of it leave, up to its own quantity, if its price is eligible. */
  ghost function Share(f: seq<Order>, tk: Taker, q: nat, i: nat): nat
    requires i < |f|
  {
    if MayTake(tk, f[i]) then Clamp(q - Depth(f[..i]), f[i].quantity) else 0
  }

  lemma {:induction false} QtyAbsent(f: seq<Order>, id: u128)
    requires !Has(f, id)
    ensures Qty(f, id) == 0
  {
    if f != [] {
      assert f[0] in f && forall o :: o in f[1..] ==> o in f;
      QtyAbsent(f[1..], id);
    }
  }

  lemma {:induction false} QtyAt(f: seq<Order>, i: nat)
    requires DistinctIds(f) && i < |f|
    ensures Qty(f, f[i].id) == f[i].quantity
  {
    if i == 0 {
      QtyAbsent(f[1..], f[0].id);
    } else {
      IndexedDistinct(f, 0, i);
      QtyAt(f[1..], i - 1);
    }
  }

  lemma {:induction false} FillMakersListed(f: seq<Order>, tk: Taker, q: u64, k: nat)
    ensures forall t :: t in FillFrom(f, tk, q, k).trades ==> Has(f, t.makerId)
  {
    if f != [] && MayTake(tk, f[0]) {
      assert f[0] in f && forall o :: o in f[1..] ==> o in f;
      if q > f[0].quantity {
        FillMakersListed(f[1..], tk, q - f[0].quantity, k + 1);
      }
    }
  }

  lemma {:induction false} MakerQtyAbsent(ts: seq<Trade>, id: u128)
    requires forall t :: t in ts ==> t.makerId != id
    ensures MakerQty(ts, id) == 0
  {
    if ts != [] {
      assert ts[0] in ts && forall t :: t in ts[1..] ==> t in ts;
      MakerQtyAbsent(ts[1..], id);
    }
  }

  /** Trades with the first order, and with the ones behind it. */
  lemma HeadShare(f: seq<Order>, tk: Taker, q: u64, k: nat, id: u128)
    requires DistinctIds(f) && f != [] && MayTake(tk, f[0])
    ensures var here := if f[0].id == id then Min(q, f[0].quantity) else 0;
      MakerQty(FillFrom(f, tk, q, k).trades, id) ==
        if q <= f[0].quantity then here
        else here + MakerQty(FillFrom(f[1..], tk, q - f[0].quantity, k + 1).trades, id)
  {
    if q <= f[0].quantity {
      TotalsOfOne(Take(tk, k, f[0], q), id);
    } else {
      var t := Take(tk, k, f[0], f[0].quantity);
      var s := FillFrom(f[1..], tk, q - f[0].quantity, k + 1);
      assert FillFrom(f, tk, q, k) == s.After([t]);
      TotalsOfOne(t, id);
      TotalsAppend([t], s.trades, id);
    }
  }

  lemma HeadServed(f: seq<Order>, tk: Taker, q: u64, k: nat)
    requires DistinctIds(f) && f != [] && MayTake(tk, f[0])
    ensures MakerQty(FillFrom(f, tk, q, k).trades, f[0].id) == Min(q, f[0].quantity)
  {
    HeadShare(f, tk, q, k, f[0].id);
    if q > f[0].quantity {
      FillMakersListed(f[1..], tk, q - f[0].quantity, k + 1);
      MakerQtyAbsent(FillFrom(f[1..], tk, q - f[0].quantity, k + 1).trades, f[0].id);
    }
  }

  lemma ShareBehindHead(f: seq<Order>, tk: Taker, q: nat, i: nat)
    requires 0 < i < |f|
    ensures Share(f, tk, q, i) == if q <= f[0].quantity then 0 else Share(f[1..], tk, q - f[0].quantity, i - 1)
  {
    assert f[..i][1..] == f[1..][..i - 1];
  }

  /** The pass ends at the first order, or that is the order asked about. */
  lemma FirstShare(side: Side, f: seq<Order>, tk: Taker, q: u64, k: nat, i: nat)
    requires ValidSide(side, f) && tk.side == side && i < |f|
    requires i == 0 || !MayTake(tk, f[0]) || q <= f[0].quantity
    ensures MakerQty(FillFrom(f, tk, q, k).trades, f[i].id) == Share(f, tk, q, i)
  {
    if !MayTake(tk, f[0]) {
      HeadIsBest(side, f, f[i]);
      assert FillFrom(f, tk, q, k) == Fill([], f, q);
    } else if i == 0 {
      assert f[..0] == [];
      HeadServed(f, tk, q, k);
    } else {
      IndexedDistinct(f, 0, i);
      HeadShare(f, tk, q, k, f[i].id);
      ShareBehindHead(f, tk, q, i);
    }
  }

  lemma ShareStep(f: seq<Order>, tk: Taker, q: u64, k: nat, q': u64, n: nat, i: nat)
    requires DistinctIds(f) && 0 < i < |f| && MayTake(tk, f[0]) && q > f[0].quantity
    requires q' == q - f[0].quantity && n == k + 1
    requires MakerQty(FillFrom(f[1..], tk, q', n).trades, f[1..][i - 1].id) == Share(f[1..], tk, q', i - 1)
    ensures MakerQty(FillFrom(f, tk, q, k).trades, f[i].id) == Share(f, tk, q, i)
  {
    IndexedDistinct(f, 0, i);
    HeadShare(f, tk, q, k, f[i].id);
    ShareBehindHead(f, tk, q, i);
  }

  /** Every resting order is served exactly its share: the outcome for each maker,
      without running the fill. */
  lemma {:induction false} Waterfall(side: Side, f: seq<Order>, tk: Taker, q: u64, k: nat, i: nat)
    requires ValidSide(side, f) && tk.side == side && i < |f|
    ensures MakerQty(FillFrom(f, tk, q, k).trades, f[i].id) == Share(f, tk, q, i)
  {
    if i == 0 || !MayTake(tk, f[0]) || q <= f[0].quantity {
      FirstShare(side, f, tk, q, k, i);
    } else {
      var q', n := q - f[0].quantity, k + 1;
      TailValid(side, f);
      Waterfall(side, f[1..], tk, q', n, i - 1);
      ShareStep(f, tk, q, k, q', n, i);
    }
  }

  lemma {:induction false} DepthPrefix(f: seq<Order>, i: nat, j: nat)
    requires i < j <= |f|
    ensures Depth(f[..i]) + f[i].quantity <= Depth(f[..j])
  {
    if i > 0 {
      assert f[..i][1..] == f[1..][..i - 1] && f[..j][1..] == f[1..][..j - 1];
      DepthPrefix(f[1..], i - 1, j - 1);
    }
  }

  /** An order is served only after every order in front of it is used up. */
  lemma ServedInOrder(side: Side, f: seq<Order>, tk: Taker, q: u64, k: nat, i: nat, j: nat)
    requires ValidSide(side, f) && tk.side == side && i < j < |f|
    requires MakerQty(FillFrom(f, tk, q, k).trades, f[j].id) > 0
    ensures MakerQty(FillFrom(f, tk, q, k).trades, f[i].id) == f[i].quantity
    ensures Qty(FillFrom(f, tk, q, k).book, f[i].id) == 0
  {
    Waterfall(side, f, tk, q, k, i);
    Waterfall(side, f, tk, q, k, j);
    DepthPrefix(f, i, j);
    IndexedSorted(side, f, i, j);
    FillMakers(f, tk, q, k, f[i].id);
    QtyAt(f, i);
  }

  /** Trade prices only get worse for the taker, and never pass its limit. */
  lemma PricesMonotone(side: Side, f: seq<Order>, tk: Taker, q: u64, k: nat, i: nat, j: nat)
    requires ValidSide(side, f) && q > 0
    requires i <= j < |FillFrom(f, tk, q, k).trades|
    ensures var ts := FillFrom(f, tk, q, k).trades;
      !Better(side, ts[j].price, ts[i].price) && Within(tk.side, tk.limit, ts[j].price)
  {
    FillIsGreedy(f, tk, q, k);
    var ts := FillFrom(f, tk, q, k).trades;
    assert Takes(tk, k + i, f[i], ts[i]) && Takes(tk, k + j, f[j], ts[j]);
    IndexedSorted(side, f, i, j);
  }

  // ------------------------------------------------------------------ optimality

  /** The quantity on offer within the limit, wherever it stands in the list. */
  ghost function EligibleDepth(f: seq<Order>, tk: Taker): nat {
    if f == [] then 0 else (if MayTake(tk, f[0]) then f[0].quantity else 0) + EligibleDepth(f[1..], tk)
  }

  lemma {:induction false} NothingEligible(side: Side, f: seq<Order>, tk: Taker)
    requires Sorted(side, f) && tk.side == side && (f != [] ==> !MayTake(tk, f[0]))
    ensures EligibleDepth(f, tk) == 0
  {
    if f != [] {
      if f[1..] != [] {
        HeadIsBest(side, f, f[1]);
      }
      NothingEligible(side, f[1..], tk);
    }
  }

  /** Stopping at the first order beyond the limit loses nothing: the quantity
      filled is all that was asked for, or all that was eligible. */
  lemma {:induction false} FilledQuantity(side: Side, f: seq<Order>, tk: Taker, q: u64, k: nat)
    requires Sorted(side, f) && tk.side == side
    ensures FillFrom(f, tk, q, k).left == Clamp(q - EligibleDepth(f, tk), q)
  {
    if f == [] || !MayTake(tk, f[0]) {
      NothingEligible(side, f, tk);
    } else if q > f[0].quantity {
      FilledQuantity(side, f[1..], tk, q - f[0].quantity, k + 1);
    }
  }

  /** What a unit at this price costs the taker: a buyer pays it, a seller is paid it. */
  function UnitCost(side: Side, price: u64): int {
    if side.Sell? then price as int else -(price as int)
  }

  function TradeCost(side: Side, ts: seq<Trade>): int {
    if ts == [] then 0 else ts[0].quantity * UnitCost(side, ts[0].price) + TradeCost(side, ts[1..])
  }

  function Notional(ts: seq<Trade>): nat {
    if ts == [] then 0 else ts[0].quantity * ts[0].price + Notional(ts[1..])
  }

  /** Another way to fill: `a[i]` units from the order at position `i`. */
  ghost predicate Allocation(f: seq<Order>, tk: Taker, a: seq<nat>) {
    |a| == |f| && forall i :: 0 <= i < |f| ==> a[i] <= f[i].quantity && (a[i] > 0 ==> MayTake(tk, f[i]))
  }

  function Sum(a: seq<nat>): nat {
    if a == [] then 0 else a[0] + Sum(a[1..])
  }

  function AllocationNotional(f: seq<Order>, a: seq<nat>): nat
    requires |a| == |f|
  {
    if f == [] then 0 else a[0] * f[0].Price() + AllocationNotional(f[1..], a[1..])
  }

  function AllocationCost(side: Side, f: seq<Order>, a: seq<nat>): int
    requires |a| == |f|
  {
    if f == [] then 0 else a[0] * UnitCost(side, f[0].Price()) + AllocationCost(side, f[1..], a[1..])
  }

  /** The cost of the first `s` units of the list. */
  function FrontCost(side: Side, f: seq<Order>, s: nat): int {
    if f == [] then 0
    else if s <= f[0].quantity then s * UnitCost(side, f[0].Price())
    else f[0].quantity * UnitCost(side, f[0].Price()) + FrontCost(side, f[1..], s - f[0].quantity)
  }

  lemma Distribute(a: int, b: int, c: int)
    ensures (a + b) * c == a * c + b * c
  {
  }

  lemma Scale(d: nat, c: int, c': int)
    requires c <= c'
    ensures d * c <= d * c'
  {
  }

  /** `d` more units cost at least `d` times the cheapest unit. */
  lemma {:induction false} FrontCostGrows(side: Side, f: seq<Order>, s: nat, d: nat, c: int)
    requires s + d <= Depth(f) && forall o :: o in f ==> c <= UnitCost(side, o.Price())
    ensures FrontCost(side, f, s) + d * c <= FrontCost(side, f, s + d)
  {
    if f != [] {
      var q, u := f[0].quantity, UnitCost(side, f[0].Price());
      assert f[0] in f && forall o :: o in f[1..] ==> o in f;
      if s > q {
        FrontCostGrows(side, f[1..], s - q, d, c);
        assert s + d - q == s - q + d;
      } else if s + d <= q {
        Distribute(s, d, u);
        Scale(d, c, u);
      } else {
        FrontCostGrows(side, f[1..], 0, s + d - q, c);
        assert FrontCost(side, f[1..], 0) == 0;
        Distribute(s, q - s, u);
        Scale(q - s, c, u);
        Distribute(q - s, s + d - q, c);
      }
    }
  }

  lemma {:induction false} AllocationFits(f: seq<Order>, a: seq<nat>)
    requires |a| == |f| && forall i :: 0 <= i < |f| ==> a[i] <= f[i].quantity
    ensures Sum(a) <= Depth(f)
  {
    if f != [] {
      AllocationFits(f[1..], a[1..]);
    }
  }

  /** No allocation is cheaper than the front of the list. */
  lemma {:induction false} FrontIsCheapest(side: Side, f: seq<Order>, a: seq<nat>)
    requires Sorted(side, f) && |a| == |f| && forall i :: 0 <= i < |f| ==> a[i] <= f[i].quantity
    ensures FrontCost(side, f, Sum(a)) <= AllocationCost(side, f, a)
  {
    if f != [] {
      var q, u, tail := f[0].quantity, UnitCost(side, f[0].Price()), f[1..];
      var s, rest := Sum(a), Sum(a[1..]);
      FrontIsCheapest(side, tail, a[1..]);
      AllocationFits(tail, a[1..]);
      var t := if s <= q then s else q;
      FrontCostGrows(side, tail, s - t, t - a[0], u);
      assert s - t + (t - a[0]) == rest;
      assert FrontCost(side, f, s) == t * u + FrontCost(side, tail, s - t) by {
        assert FrontCost(side, tail, 0) == 0;
      }
      Distribute(a[0], t - a[0], u);
    }
  }

  lemma {:induction false} FillCostsFront(side: Side, f: seq<Order>, tk: Taker, q: u64, k: nat)
    ensures TradeCost(side, FillFrom(f, tk, q, k).trades) == FrontCost(side, f, Total(FillFrom(f, tk, q, k).trades))
  {
    if f == [] || !MayTake(tk, f[0]) {
    } else if q <= f[0].quantity {
      var t := Take(tk, k, f[0], q);
      assert [t][1..] == [];
    } else {
      var t := Take(tk, k, f[0], f[0].quantity);
      var s := FillFrom(f[1..], tk, q - f[0].quantity, k + 1);
      FillCostsFront(side, f[1..], tk, q - f[0].quantity, k + 1);
      assert ([t] + s.trades)[1..] == s.trades;
      assert FrontCost(side, f[1..], 0) == 0;
    }
  }

  lemma {:induction false} CostIsNotional(side: Side, ts: seq<Trade>)
    ensures TradeCost(side, ts) == if side.Sell? then Notional(ts) as int else -(Notional(ts) as int)
  {
    if ts != [] {
      CostIsNotional(side, ts[1..]);
    }
  }

  lemma {:induction false} AllocationCostIsNotional(side: Side, f: seq<Order>, a: seq<nat>)
    requires |a| == |f|
    ensures AllocationCost(side, f, a) ==
      if side.Sell? then AllocationNotional(f, a) as int else -(AllocationNotional(f, a) as int)
  {
    if f != [] {
      AllocationCostIsNotional(side, f[1..], a[1..]);
    }
  }

  lemma {:induction false} AllocationWithinEligible(f: seq<Order>, tk: Taker, a: seq<nat>)
    requires Allocation(f, tk, a)
    ensures Sum(a) <= EligibleDepth(f, tk)
  {
    if f != [] {
      assert forall i :: 0 <= i < |f[1..]| ==> a[1..][i] == a[i + 1] && f[1..][i] == f[i + 1];
      AllocationWithinEligible(f[1..], tk, a[1..]);
    }
  }

  /** The greedy fill is best possible. It fills as much as any allocation of at
      most `q` eligible units, and among those that fill as much a buyer pays the
      least and a seller receives the most. */
  lemma FillIsOptimal(side: Side, f: seq<Order>, tk: Taker, q: u64, k: nat, a: seq<nat>)
    requires Sorted(side, f) && tk.side == side
    requires Allocation(f, tk, a) && Sum(a) <= q
    ensures var ts := FillFrom(f, tk, q, k).trades;
      && Total(ts) == (if q <= EligibleDepth(f, tk) then q else EligibleDepth(f, tk))
      && Sum(a) <= Total(ts)
      && (Sum(a) == Total(ts) && side.Sell? ==> Notional(ts) <= AllocationNotional(f, a))
      && (Sum(a) == Total(ts) && side.Buy? ==> Notional(ts) >= AllocationNotional(f, a))
  {
    var ts := FillFrom(f, tk, q, k).trades;
    FilledQuantity(side, f, tk, q, k);
    FillTotals(f, tk, q, k);
    AllocationWithinEligible(f, tk, a);
    FrontIsCheapest(side, f, a);
    FillCostsFront(side, f, tk, q, k);
    CostIsNotional(side, ts);
    AllocationCostIsNotional(side, f, a);
  }
}
