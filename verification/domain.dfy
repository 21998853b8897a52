/** The records a response body decodes into. They have no behaviour of their own:
    decoding them is generated from their shape, and only their shape is kept here. */
module Domain {
  import opened Sides

  /** Rust's `u64` (also used for `usize`, on a 64-bit target). */
  type U64 = x: int | 0 <= x < 0x1_0000_0000_0000_0000

  /** An order identifier: a 128-bit UUID. */
  type Uuid = x: int | 0 <= x < 0x1_0000_0000_0000_0000_0000_0000_0000_0000

  /** A decimal quantity held by the source as an `f64`; binary64 rounding is not kept. */
  type Quantity = real

  /** An RFC 3339 timestamp, kept as its text. */
  type Timestamp = string

  datatype Product = Product(
    id: string,
    baseCurrency: string,
    quoteCurrency: string,
    baseMinSize: Quantity,
    baseMaxSize: Quantity,
    quoteIncrement: Quantity,
    displayName: string)

  /** One aggregated price level of a best-price or top-50 book. */
  datatype BookEntry = BookEntry(price: Quantity, size: Quantity, numOrders: U64)

  /** One order of a full book. */
  datatype FullBookEntry = FullBookEntry(price: Quantity, size: Quantity, orderId: Uuid)

  /** One book shape for every level, parameterised by the entry shape. */
  datatype OrderBook<Entry> = OrderBook(sequence: U64, bids: seq<Entry>, asks: seq<Entry>)

  datatype Candle = Candle(
    time: U64,
    low: Quantity,
    high: Quantity,
    open: Quantity,
    close: Quantity,
    volume: Quantity)

  datatype Tick = Tick(
    tradeId: U64,
    price: Quantity,
    size: Quantity,
    bid: Quantity,
    ask: Quantity,
    volume: Quantity,
    time: Timestamp)

  datatype Trade = Trade(
    time: Timestamp,
    tradeId: U64,
    price: Quantity,
    size: Quantity,
    side: Side)
}
