/** What the matching engine means, on plain lists: each side of a book is one
    list of resting orders in price-time priority, best order first. */
module PriceTime {
  import opened Types

  /** Price `p` is served strictly before price `q` on the side `side` of a book. */
  predicate Better(side: Side, p: u64, q: u64) {
    if side.Buy? then p > q else p < q
  }

  /** A taker with this limit may trade with orders resting on `side` at `price`. */
  predicate Within(side: Side, limit: Option<u64>, price: u64) {
    limit.None? || !Better(side, limit.value, price)
  }

  /** One pass of a taker over one side of the book: the side it hits, its limit
      and the clock it reads once per trade. */
  datatype Taker = Taker(id: u128, side: Side, limit: Option<u64>, clock: Clock)

  datatype Fill = Fill(trades: seq<Trade>, book: seq<Order>, left: u64) {
    function After(earlier: seq<Trade>): Fill {
      Fill(earlier + trades, book, left)
    }
  }

  /** The `k`-th trade of a pass. */
  function TradeOf(tk: Taker, k: nat, price: u64, maker: Order, quantity: u64): Trade {
    Trade(price, quantity, maker.id, tk.id, tk.clock(k), maker.pair.Code())
  }

  function Take(tk: Taker, k: nat, maker: Order, quantity: u64): Trade {
    TradeOf(tk, k, maker.Price(), maker, quantity)
  }

  function Min(a: u64, b: u64): u64 {
    if a <= b then a else b
  }

  /** Take `q` from the head of the list, dropping it if that uses it up. */
  function Cut(f: seq<Order>, q: u64): seq<Order>
    requires f != [] && q <= f[0].quantity
  {
    if q == f[0].quantity then f[1..] else [f[0].(quantity := f[0].quantity - q)] + f[1..]
  }

  /** The simple fill: take from the head of the list until the list, the limit
      or the quantity runs out. `k` counts the clock readings made so far. The
      quantity is tested after each trade, as in the source. */
  function FillFrom(f: seq<Order>, tk: Taker, q: u64, k: nat): Fill {
    if f == [] || !Within(tk.side, tk.limit, f[0].Price()) then
      Fill([], f, q)
    else if q <= f[0].quantity then
      Fill([Take(tk, k, f[0], q)], Cut(f, q), 0)
    else
      FillFrom(f[1..], tk, q - f[0].quantity, k + 1).After([Take(tk, k, f[0], f[0].quantity)])
  }

  /** A new order goes behind every order that is at least as well priced. */
  function Rest(side: Side, f: seq<Order>, o: Order): seq<Order> {
    if f == [] || Better(side, o.Price(), f[0].Price()) then [o] + f
    else [f[0]] + Rest(side, f[1..], o)
  }

  function Without(f: seq<Order>, id: u128): seq<Order> {
    if f == [] then []
    else if f[0].id == id then Without(f[1..], id)
    else [f[0]] + Without(f[1..], id)
  }

  /** The queue of one price level. */
  function Level(f: seq<Order>, p: u64): seq<Order> {
    if f == [] then []
    else if f[0].Price() == p then [f[0]] + Level(f[1..], p)
    else Level(f[1..], p)
  }

  datatype Book = Book(bids: seq<Order>, asks: seq<Order>) {
    function On(side: Side): seq<Order> {
      if side.Buy? then bids else asks
    }

    function With(side: Side, f: seq<Order>): Book {
      if side.Buy? then Book(f, asks) else Book(bids, f)
    }

    predicate Holds(id: u128) {
      Has(bids, id) || Has(asks, id)
    }
  }

  const EMPTY_BOOK := Book([], [])

  predicate Has(f: seq<Order>, id: u128) {
    exists o :: o in f && o.id == id
  }

  function TakerOf(o: Order, clock: Clock): Taker {
    Taker(o.id, o.side.Opposite(), if o.orderType.Market? then None else o.price, clock)
  }

  datatype Matched = Matched(trades: seq<Trade>, book: Book, left: u64)

  /** What is left of a limit order with a price rests; any other remainder is
      dropped. */
  predicate Rests(o: Order, left: u64) {
    o.orderType.Limit? && left > 0 && o.price.Some?
  }

  function Match(b: Book, o: Order, clock: Clock): Matched {
    var hit := o.side.Opposite();
    var r := FillFrom(b.On(hit), TakerOf(o, clock), o.quantity, 0);
    var own := if Rests(o, r.left) then Rest(o.side, b.On(o.side), o.(quantity := r.left))
               else b.On(o.side);
    Matched(r.trades, b.With(hit, r.book).With(o.side, own), r.left)
  }

  function Cancel(b: Book, id: u128): Book {
    Book(Without(b.bids, id), Without(b.asks, id))
  }

  // ---------------------------------------------------------------- validity

  ghost predicate Resting(side: Side, o: Order) {
    o.side == side && o.price.Some? && o.quantity > 0
  }

  /** Best price first. */
  ghost predicate Sorted(side: Side, f: seq<Order>) {
    f == [] ||
    ((forall o :: o in f[1..] ==> !Better(side, o.Price(), f[0].Price())) && Sorted(side, f[1..]))
  }

  ghost predicate DistinctIds(f: seq<Order>) {
    f == [] || (!Has(f[1..], f[0].id) && DistinctIds(f[1..]))
  }

  ghost predicate ValidSide(side: Side, f: seq<Order>) {
    Sorted(side, f) && DistinctIds(f) && forall o :: o in f ==> Resting(side, o)
  }

  ghost predicate ValidBook(b: Book) {
    && ValidSide(Buy, b.bids) && ValidSide(Sell, b.asks)
    && forall o :: o in b.bids ==> !Has(b.asks, o.id)
  }

  /** Every bid is strictly below every ask. */
  ghost predicate Uncrossed(b: Book) {
    forall x, y :: x in b.bids && y in b.asks ==> x.Price() < y.Price()
  }
}
