/** The entities of the exchange: orders, trades and trading pairs
    (`orders.rs`, `trade.rs`, `instrument.rs`). */
module Types {

  type u8 = n: nat | n < 0x100
  type u64 = n: nat | n < 0x1_0000_0000_0000_0000
  type u128 = n: nat | n < 0x1_0000_0000_0000_0000_0000_0000_0000_0000

  const U64_MODULUS: nat := 0x1_0000_0000_0000_0000

  datatype Option<+T> = None | Some(value: T)

  datatype Side = Buy | Sell {
    function Opposite(): Side {
      if Buy? then Sell else Buy
    }
  }

  datatype OrderType = Limit | Market

  datatype Asset = BTC | USD | ETH {
    /** The three ASCII letters that print an asset. */
    function Letters(): seq<u8> {
      match this
      case BTC => [66, 84, 67]
      case USD => [85, 83, 68]
      case ETH => [69, 84, 72]
    }
  }

  /** A market. `Code` is its printed form, for example `BTC-USD`, as bytes. */
  datatype Pair = Pair(base: Asset, quote: Asset) {
    function Code(): seq<u8> {
      base.Letters() + [45] + quote.Letters()
    }
  }

  const BTC_USD := Pair(BTC, USD)
  const ETH_USD := Pair(ETH, USD)

  /** An order. Only an order with a price can rest in a book; `Price` is read
      of resting orders only. */
  datatype Order = Order(
    id: u128,
    side: Side,
    orderType: OrderType,
    price: Option<u64>,
    quantity: u64,
    timestamp: u128,
    pair: Pair)
  {
    function Price(): u64 {
      if price.Some? then price.value else 0
    }
  }

  /** A trade. Its timestamp is in nanoseconds since the Unix epoch, and its
      symbol is the UTF-8 byte string of the source's `String`. */
  datatype Trade = Trade(
    price: u64,
    quantity: u64,
    makerId: u128,
    takerId: u128,
    timestamp: u128,
    symbol: seq<u8>)

  /** The readings of the system clock during one call, in the order they are
      taken. Nothing is assumed of them: they may repeat or go backwards. */
  type Clock = nat -> u128
}
