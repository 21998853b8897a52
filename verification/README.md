# gdax-rs market-data client, modelled in Dafny

`gdax-rs` is a small Rust client for the public market-data REST API of the GDAX
exchange. Each public operation of its `Client` builds a URL by string
concatenation onto the fixed base `https://api.gdax.com`, performs one GET, and
turns the outcome into either a decoded record or one of three errors (`Api`,
`Http`, `Json`). `Side` is the only type with a hand-written `Serialize` and
`Deserialize`: a trade's side is sent as the lower-case word `buy` or `sell` and read
back ignoring case.

This project models those three pieces of logic from `src/lib.rs`:

- **Side codec** (`side.dfy`, module `Sides`): `Display`, `Serialize` and
  `Deserialize` for `Side`. The wire form is `"buy"`/`"sell"`. Decoding lower-cases
  the input and compares it with those words. Any other string is refused with the
  message ``side must be either `buy` or `sell`: `` followed by the input exactly as
  received. A JSON value that is not a string is a type error carrying the
  visitor's expectation text.
- **Endpoint URLs** (`endpoints.dfy`, module `Endpoints`): the `Level`
  discriminants and the URLs of the seven operations:
  - `get_products`: `Products`.
  - `get_best_order`, `get_top50_orders` and `get_full_book`: `Book` at levels
    `Best`, `Top50` and `Full`.
  - `get_historic_rates`: `Candles`.
  - `get_product_ticker`: `Ticker`.
  - `get_trades`: `Trades`.

  A parser `ParseUrl` is the partner of the builders. It reads the operation and
  its arguments back from a URL, and both directions of that round trip are proved.
- **Result classification** (`client.dfy`, module `Client`): `get_and_decode` with
  the `From` conversions. The transport outcome is a datatype
  (`TransportFailed | Response(status, body)`). The body decoder is a function
  parameter. A non-2xx status yields `Api` before any decoding.

Supporting modules:
- `wrappers.dfy` defines `Option` and `Result`.
- `ascii.dfy` defines ASCII lower-casing, with a pointwise reference definition of
  "equal ignoring case".
- `decimal.dfy` defines how Rust's `{}` writes an integer, plus a canonical parser
  for that text. It is used for the `level=` digit and for the granularity seconds.
- `json_values.dfy` defines the JSON values and decode errors a field decoder sees.
- `domain.dfy` defines the response records (`Product`, `BookEntry`,
  `FullBookEntry`, `OrderBook<Entry>`, `Candle`, `Tick`, `Trade`). They are shapes
  only. No module imports them. `Client.Call` is generic in the decoded type, so the
  model does not tie an operation to its record type. For example, it does not tie
  `Book(_, Full)` to `OrderBook<FullBookEntry>`.

The transport, the clock and serde's generated decoders are not modelled.
Timestamps are the RFC 3339 text the caller's dates render to. Granularity is the
`i64` that `Duration::num_seconds` returns.

## Model

| member | source | states |
|---|---|---|
| `Sides.Display` | src/lib.rs:114-121 | The human-readable form starts with a capital letter, so it is never the wire word. |
| `Sides.EncodeValue` | src/lib.rs:126-135 | `Serialize` writes a JSON string holding `"buy"` or `"sell"`, which is the lower-cased `Display` text. |
| `Sides.Encode` | src/lib.rs:126-135 | Serialisation emits exactly `"buy"` or `"sell"` and nothing else. The emitted word is the lower-cased `Display` text. |
| `Sides.Decode` | src/lib.rs:153-161 | A string decodes to `Buy` iff it is a case variant of `buy`, and to `Sell` iff it is a case variant of `sell`. Every other string fails with ``side must be either `buy` or `sell`: `` followed by the original, un-lowered input. |
| `Sides.DecodeValue` | src/lib.rs:140-164 | A JSON string is decoded by `Decode`, so it is case-insensitive and has the same refusal message. Every other JSON value fails as a type error carrying the expectation text "a Side specifier, either Buy or Sell". |
| `Sides.DecodeEncode` | src/lib.rs:126-161 | Round trip: decoding the wire word of a side returns that side. |
| `Sides.DecodeValueEncodeValue` | src/lib.rs:126-164 | Round trip through the JSON value: decoding what `Serialize` writes returns the original side. |
| `Sides.EncodeInjective` | src/lib.rs:130-133 | Two sides get the same wire word iff they are the same side. |
| `Sides.EncodeDecode` | src/lib.rs:130-157 | Re-encoding a decoded string gives the string's lower-case form. The wire word is the canonical spelling of every accepted input. |
| `Sides.DecodeDependsOnlyOnLowercase` | src/lib.rs:155-157 | Two strings with the same lower-case form are either both accepted as the same side or both refused. |
| `Sides.DecodeIgnoresCase` | src/lib.rs:155-157 | Every casing of a side's wire word decodes to that side. |
| `Sides.RejectionNamesInput` | src/lib.rs:159 | A refusal is a custom error whose message ends with the offending string exactly as received. |
| `Sides.DisplayIsNotWireButDecodes` | src/lib.rs:114-157 | The `Display` text is the wire word with its first letter upper-cased (`Buy`, `Sell`). So it differs from the wire word, yet decoding it returns the same side. |
| `Sides.AcceptedSpellings` | src/lib.rs:155-157 | `BUY` and `bUy` decode to `Buy`, and `SeLL` decodes to `Sell`. |
| `Sides.RejectedSpellings` | src/lib.rs:153-164 | `long`, the empty string and `buys` are refused, each with its own text in the message. A JSON number is a type error. |
| `Ascii.ToLower` | src/lib.rs:155 | Lower-casing keeps the length and maps each character on its own: `A`..`Z` become `a`..`z`, and every other character is kept. |
| `Ascii.ToLowerIsWordIff` | src/lib.rs:155 | A string lower-cases to a lower-case word iff it spells that word with each letter in either case. |
| `Decimal.NatDigits` | src/lib.rs:253 | The digits of a natural number are non-empty decimal digits with no leading zero. The text is `"0"` exactly for zero. |
| `Decimal.FromInt` | src/lib.rs:248-253 | The formatted integer is non-empty and ends in a digit. It starts with `-` exactly when the number is negative, and every other character is a digit. |
| `Decimal.ParseOfFromInt` | src/lib.rs:248-253 | Every formatted integer parses back to itself. |
| `Decimal.FromIntOfParse` | src/lib.rs:248-253 | Every text the parser accepts is exactly the formatted text of the integer it returns. |
| `Decimal.ParseIffFromInt` | src/lib.rs:248-253 | The formatted text and the integer determine each other: `Parse(s) == Some(n)` iff `FromInt(n) == s`. |
| `Endpoints.Discriminant` | src/lib.rs:187-191 | The level discriminants lie in 1..3. |
| `Endpoints.DiscriminantValues` | src/lib.rs:187-191 | Best is 1, Top50 is 2 and Full is 3. Distinct levels have distinct discriminants. |
| `Endpoints.LevelText` | src/lib.rs:221-240 | The `level=` value is the single digit of the level's discriminant. |
| `Endpoints.ProductUrl` | src/lib.rs:221-261 | A per-product URL starts with the products URL and `/`. The product symbol follows unchanged, and the operation's tail ends the URL. |
| `Endpoints.BookUrl` | src/lib.rs:221-240 | An order-book URL is 13 characters longer than the product part, and ends with `=` followed by the level's digit. |
| `Endpoints.CandlesUrl` | src/lib.rs:242-254 | A candles URL ends with `&granularity=` and the decimal text of the whole-second count. |
| `Endpoints.TickerUrl` | src/lib.rs:256-258 | The ticker URL is the products URL, `/`, the product symbol verbatim, and `/ticker`. |
| `Endpoints.TradesUrl` | src/lib.rs:260-262 | The trades URL is the products URL, `/`, the product symbol verbatim, and `/trades`. |
| `Endpoints.Url` | src/lib.rs:217-262 | The URL of each of the seven operations. Only `get_products` requests the bare products URL. Every other operation requests the products URL, `/`, its product symbol verbatim, and more. `ParseUrlOfUrl` and `UrlOfParseUrl` are its partner: they show the URL determines the operation and its arguments. |
| `Endpoints.ParseUrlOfUrl` | src/lib.rs:217-262 | Round trip: the operation and all its arguments can be read back from its URL. For candles this holds when the timestamps contain no `&` or `/`, which RFC 3339 text never does. |
| `Endpoints.UrlOfParseUrl` | src/lib.rs:217-262 | Converse round trip: any URL the parser accepts is exactly the URL of the operation it returns. |
| `Endpoints.UrlInjective` | src/lib.rs:217-262 | Two well-formed operations share a URL iff they are the same operation with the same arguments. |
| `Endpoints.UrlStartsWithProducts` | src/lib.rs:217-262 | Every URL starts with the constant base `https://api.gdax.com` (line 20) followed by `/products`. |
| `Endpoints.ProductAppearsVerbatim` | src/lib.rs:221-261 | The product symbol sits unescaped right after `/products/`, and the operation's tail follows it directly. |
| `Endpoints.BookUrlsDifferOnlyInLevelDigit` | src/lib.rs:221-240 | The three book URLs of a product have the same length and agree everywhere except the last character. That character is the level's digit, so the URLs are equal iff the levels are. |
| `Endpoints.BestBookExample` | src/lib.rs:221-226 | The best-price book of `ETH-USD` is requested at the products URL `https://api.gdax.com/products` followed by `/ETH-USD/book?level=1`. |
| `Endpoints.FullBookExample` | src/lib.rs:235-240 | The full book of `ETH-USD` is requested at the products URL followed by `/ETH-USD/book?level=3`. |
| `Endpoints.CandlesUrlAmbiguousWithoutSeparatorFreeTimes` | src/lib.rs:248-253 | If a timestamp text contained `&end=`, two different candle requests would share a URL, so the round trip needs its condition. |
| `Client.IsSuccess` | src/lib.rs:210 | A status counts as success exactly when it is in the 2xx class. |
| `Client.FromHttp` | src/lib.rs:30-34 | A transport error becomes `Http` and keeps its cause. |
| `Client.FromJson` | src/lib.rs:36-40 | A decode error becomes `Json` and keeps its cause. |
| `Client.GetAndDecode` | src/lib.rs:204-215 | There are four disjoint outcomes. A failure of `get` or `send`, before the body is read, is `Http` with its cause (From impl, lines 30-34). A non-2xx status is `Api`. A 2xx status with a failing decode is `Json` with the decoder's error (From impl, lines 36-40). A 2xx status with a successful decode is success with the decoded value. |
| `Client.Call` | src/lib.rs:217-262 | Each operation classifies the transport's answer for its own URL, on the same conditions as `GetAndDecode`. A failure of `get` or `send` is `Http` with its cause. A non-2xx status is `Api`. A 2xx status with a failing decode is `Json` with the decoder's error. A 2xx status with a successful decode is success with the decoded value. |
| `Client.NonSuccessIgnoresBodyAndDecoder` | src/lib.rs:210-212 | A non-2xx status gives `Api` for every body and every decoder, so decoding cannot affect the result. |
| `Client.DecoderSeesOnlyTheBody` | src/lib.rs:208-214 | Decoders that agree on the received body give the same result. |
| `Client.CallDependsOnlyOnItsUrl` | src/lib.rs:217-262 | Transports that answer an operation's URL alike give the same result. |
| `Client.ServerErrorExample` | src/lib.rs:210-212 | A status 500 with an empty body is `Api`, not a decode error. |

## Left out

- The HTTP transport (client construction at src/lib.rs:198-202, `get`, `send`) is left out. The model takes its outcome as a value. A status counts as success when it is in 200..299. Transport errors are opaque.
- JSON text parsing and the derived decoders of `Product`, `BookEntry`, `FullBookEntry`, `OrderBook<T>`, `Candle`, `Tick` and `Trade` are left out. They are generated by serde. The records are kept as datatypes without behaviour, and the body decoder of `GetAndDecode` is a parameter.
- The `from_str` field helper (src/lib.rs:178-185) is left out. It reads a JSON string and passes it to `FromStr`. For the `f64` fields that is the standard library's parser. For `order_id` it is the `uuid` crate's parser. Neither parser is modelled.
- `f64` fields are held as `real`, so binary64 rounding is not modelled.
- chrono is left out. `to_rfc3339` output is taken as the timestamp text, and `Duration::num_seconds` as an `i64`.
- The `println!` of the URL (src/lib.rs:207) and the network-dependent test (src/lib.rs:318-324) are left out.
- Client.GetAndDecode: `send()?` (src/lib.rs:208) returns once the headers arrive. The body is streamed afterwards by `from_reader` (line 214). So an I/O failure while reading the body surfaces as a serde_json error and becomes `Json`, not `Http`. The model's `Response` carries a complete body, so it can express such a failure only as a decoder failure.
- Ascii.ToLower: models ASCII lower-casing only. Rust's `to_lowercase` also changes non-ASCII letters. No non-ASCII character lower-cases to a letter of `buy` or `sell`, so which inputs `Sides.Decode` accepts is unchanged. Its error message uses the original input, so it is unaffected too.
- Endpoints.ParseUrlOfUrl: the candles case assumes timestamps without `&` or `/`. Without that assumption the URL is ambiguous, as `Endpoints.CandlesUrlAmbiguousWithoutSeparatorFreeTimes` shows.
- No invariant `base_min_size <= base_max_size` is stated for `Product`, because the code never checks one.
- The API base is the compiled-in constant at src/lib.rs:20. It is not configurable.
- The product symbol is inserted without escaping, as the code does. A symbol containing `?` or `/` would change the path the server sees. The model records this verbatim insertion but does not judge it.
