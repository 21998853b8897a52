/** The request URLs of the seven public operations, built by plain concatenation
    onto a fixed base, and a parser that recovers the operation from its URL. */
module Endpoints {
  import opened Wrappers
  import opened Decimal

  const PublicApiUrl: string := "https://api.gdax.com"

  /** The products listing; every other URL extends it with `/` and a product symbol. */
  const ProductsUrl: string := PublicApiUrl + "/products"

  /** Detail level of an order book; its discriminant is the `level=` query value. */
  datatype Level = Best | Top50 | Full

  function Discriminant(l: Level): (d: nat)
    ensures 1 <= d <= 3
  {
    match l
    case Best => 1
    case Top50 => 2
    case Full => 3
  }

  /** The discriminants are Best = 1, Top50 = 2, Full = 3, one per level. */
  lemma DiscriminantValues(l1: Level, l2: Level)
    ensures Discriminant(Best) == 1 && Discriminant(Top50) == 2 && Discriminant(Full) == 3
    ensures Discriminant(l1) == Discriminant(l2) <==> l1 == l2
  {
  }

  /** One public read operation with its arguments. Timestamps are the RFC 3339
      text the caller's dates render to; granularity is a whole number of seconds. */
  datatype Endpoint =
    | Products
    | Book(product: string, level: Level)
    | Candles(product: string, start: string, end: string, granularity: I64)
    | Ticker(product: string)
    | Trades(product: string)

  predicate StartsWith(s: string, prefix: string) {
    |prefix| <= |s| && s[..|prefix|] == prefix
  }

  predicate EndsWith(s: string, suffix: string) {
    |suffix| <= |s| && s[|s| - |suffix|..] == suffix
  }

  /** `level=` query value of a level, as the formatter writes the discriminant. */
  function LevelText(l: Level): (r: string)
    ensures |r| == 1 && r[0] == DigitChar(Discriminant(l))
  {
    FromInt(Discriminant(l))
  }

  function BookTail(l: Level): string {
    "/book?level=" + LevelText(l)
  }

  function ProductUrl(product: string, tail: string): (r: string)
    ensures |r| == |ProductsUrl| + 1 + |product| + |tail|
    ensures StartsWith(r, ProductsUrl + "/")
    ensures r[|ProductsUrl| + 1..|ProductsUrl| + 1 + |product|] == product
    ensures EndsWith(r, tail)
  {
    var r := ProductsUrl + "/" + product + tail;
    assert r[..|ProductsUrl| + 1] == ProductsUrl + "/";
    r
  }

  /** Ends with `?level=` and the level's digit. */
  function BookUrl(product: string, level: Level): (r: string)
    ensures |r| == |ProductsUrl| + 1 + |product| + 13
    ensures r[|r| - 1] == DigitChar(Discriminant(level))
    ensures r[|r| - 2] == '='
  {
    var r := ProductUrl(product, BookTail(level));
    EndsWithLast(r, BookTail(level));
    r
  }

  /** The three query keys of the candles URL, each with its `=`. */
  const StartKey: string := "candles?start="
  const EndKey: string := "end="
  const GranularityKey: string := "granularity="

  function CandlesTail(start: string, end: string, granularity: I64): string {
    "/" + StartKey + start + "&" + EndKey + end + "&" + GranularityKey + FromInt(granularity)
  }

  function CandlesUrl(product: string, start: string, end: string, granularity: I64): (r: string)
    ensures |r| > |ProductsUrl| + 1 + |product|
    ensures StartsWith(r, ProductsUrl + "/")
    ensures r[|ProductsUrl| + 1..|ProductsUrl| + 1 + |product|] == product
    ensures EndsWith(r, "&" + GranularityKey + FromInt(granularity))
  {
    var r := ProductUrl(product, CandlesTail(start, end, granularity));
    CandlesTailEnds(product, start, end, granularity);
    r
  }

  lemma EndsWithConcat(a: string, b: string)
    ensures EndsWith(a + b, b)
  {
    assert (a + b)[|a|..] == b;
  }

  /** The last two characters of a string are those of any suffix of length two or more. */
  lemma EndsWithLast(s: string, suffix: string)
    requires EndsWith(s, suffix) && |suffix| >= 2
    ensures s[|s| - 1] == suffix[|suffix| - 1] && s[|s| - 2] == suffix[|suffix| - 2]
  {
    assert s[|s| - |suffix|..][|suffix| - 1] == s[|s| - 1];
    assert s[|s| - |suffix|..][|suffix| - 2] == s[|s| - 2];
  }

  lemma CandlesTailEnds(product: string, start: string, end: string, granularity: I64)
    ensures EndsWith(ProductUrl(product, CandlesTail(start, end, granularity)), "&" + GranularityKey + FromInt(granularity))
    ensures EndsWith(product + CandlesTail(start, end, granularity), "&" + GranularityKey + FromInt(granularity))
  {
    var g := "&" + GranularityKey + FromInt(granularity);
    var front := "/" + StartKey + start + "&" + EndKey + end;
    assert CandlesTail(start, end, granularity) == front + g by {
      AppendAssoc(front, "&", GranularityKey);
      AppendAssoc(front, "&" + GranularityKey, FromInt(granularity));
    }
    AppendAssoc(ProductsUrl + "/" + product, front, g);
    AppendAssoc(product, front, g);
    EndsWithConcat(ProductsUrl + "/" + product + front, g);
    EndsWithConcat(product + front, g);
  }

  /** The ticker of one product: the product path followed by `/ticker`. */
  function TickerUrl(product: string): (r: string)
    ensures |r| == |ProductsUrl| + 1 + |product| + 7
    ensures StartsWith(r, ProductsUrl + "/")
    ensures r[|ProductsUrl| + 1..|ProductsUrl| + 1 + |product|] == product
    ensures EndsWith(r, "/ticker")
  {
    ProductUrl(product, "/ticker")
  }

  /** The latest trades of one product: the product path followed by `/trades`. */
  function TradesUrl(product: string): (r: string)
    ensures |r| == |ProductsUrl| + 1 + |product| + 7
    ensures StartsWith(r, ProductsUrl + "/")
    ensures r[|ProductsUrl| + 1..|ProductsUrl| + 1 + |product|] == product
    ensures EndsWith(r, "/trades")
  {
    ProductUrl(product, "/trades")
  }

  /** The URL each public operation requests. Only the product list is the bare
      products URL; every other operation adds `/`, its product symbol verbatim, and
      a tail. The parser below is its partner. */
  function Url(e: Endpoint): (r: string)
    ensures e.Products? <==> r == ProductsUrl
    ensures !e.Products? ==> StartsWith(r, ProductsUrl + "/")
    ensures !e.Products? ==> |r| > |ProductsUrl| + 1 + |e.product|
    ensures !e.Products? ==> r[|ProductsUrl| + 1..|ProductsUrl| + 1 + |e.product|] == e.product
  {
    match e
    case Products => ProductsUrl
    case Book(p, l) => BookUrl(p, l)
    case Candles(p, s, t, g) => CandlesUrl(p, s, t, g)
    case Ticker(p) => TickerUrl(p)
    case Trades(p) => TradesUrl(p)
  }

  /** Timestamp text that cannot be confused with the URL's own separators. RFC 3339
      text (digits, `-`, `:`, `T`, `.`, `+`, `Z`) always qualifies. */
  predicate SeparatorFree(t: string) {
    '&' !in t && '/' !in t
  }

  predicate WellFormed(e: Endpoint) {
    e.Candles? ==> SeparatorFree(e.start) && SeparatorFree(e.end)
  }

  /** Position of the last `c` in `s`, if there is one. */
  function LastIndexOf(s: string, c: char): (r: Option<nat>)
    ensures r.Some? ==> r.value < |s| && s[r.value] == c
    ensures r.Some? ==> forall j :: r.value < j < |s| ==> s[j] != c
    ensures r.None? ==> c !in s
  {
    if |s| == 0 then None
    else if s[|s| - 1] == c then Some(|s| - 1)
    else LastIndexOf(s[..|s| - 1], c)
  }

  /** The parts of `s` before and after its last `c`. */
  function SplitLast(s: string, c: char): (r: Option<(string, string)>)
    ensures r.Some? ==> s == r.value.0 + [c] + r.value.1 && c !in r.value.1
    ensures r.None? ==> c !in s
  {
    var i :- LastIndexOf(s, c);
    assert s == s[..i] + [c] + s[i + 1..];
    Some((s[..i], s[i + 1..]))
  }

  function StripPrefix(s: string, prefix: string): (r: Option<string>)
    ensures r.Some? <==> StartsWith(s, prefix)
    ensures r.Some? ==> s == prefix + r.value
  {
    if StartsWith(s, prefix) then Some(s[|prefix|..]) else None
  }

  function StripSuffix(s: string, suffix: string): (r: Option<string>)
    ensures r.Some? <==> EndsWith(s, suffix)
    ensures r.Some? ==> s == r.value + suffix
  {
    if EndsWith(s, suffix) then Some(s[..|s| - |suffix|]) else None
  }

  /** Reads back the operation a URL requests. */
  function ParseUrl(u: string): Option<Endpoint> {
    var rest :- StripPrefix(u, ProductsUrl);
    if rest == [] then Some(Products)
    else
      var path :- StripPrefix(rest, "/");
      ParseProductPath(path)
  }

  /** Reads the part of a URL after `/products/`: the operation is told by the tail. */
  function ParseProductPath(path: string): Option<Endpoint> {
    if EndsWith(path, "/ticker") then Some(Ticker(StripSuffix(path, "/ticker").value))
    else if EndsWith(path, "/trades") then Some(Trades(StripSuffix(path, "/trades").value))
    else if EndsWith(path, BookTail(Best)) then Some(Book(StripSuffix(path, BookTail(Best)).value, Best))
    else if EndsWith(path, BookTail(Top50)) then Some(Book(StripSuffix(path, BookTail(Top50)).value, Top50))
    else if EndsWith(path, BookTail(Full)) then Some(Book(StripSuffix(path, BookTail(Full)).value, Full))
    else ParseCandlesPath(path)
  }

  /** Reads `{product}/candles?start=S&end=E&granularity=G` from the right. */
  function ParseCandlesPath(path: string): Option<Endpoint> {
    var granularitySplit :- SplitLast(path, '&');
    var granularityText :- StripPrefix(granularitySplit.1, GranularityKey);
    var granularity :- Parse(granularityText);
    if !(-0x8000_0000_0000_0000 <= granularity < 0x8000_0000_0000_0000) then None
    else
      var endSplit :- SplitLast(granularitySplit.0, '&');
      var end :- StripPrefix(endSplit.1, EndKey);
      var startSplit :- SplitLast(endSplit.0, '/');
      var start :- StripPrefix(startSplit.1, StartKey);
      Some(Candles(startSplit.0, start, end, granularity))
  }

  /** What follows the product symbol in the URL of a per-product operation. */
  function Tail(e: Endpoint): string
    requires !e.Products?
  {
    match e
    case Book(_, l) => BookTail(l)
    case Candles(_, s, t, g) => CandlesTail(s, t, g)
    case Ticker(_) => "/ticker"
    case Trades(_) => "/trades"
  }

  lemma NotEndsWithOtherLastChar(s: string, suffix: string)
    requires |s| >= 1 && |suffix| >= 1 && s[|s| - 1] != suffix[|suffix| - 1]
    ensures !EndsWith(s, suffix)
  {
  }

  lemma SplitLastOf(a: string, c: char, b: string)
    requires c !in b
    ensures SplitLast(a + [c] + b, c) == Some((a, b))
  {
    var s := a + [c] + b;
    assert s[|a|] == c;
    var r := SplitLast(s, c);
    var x, y := r.value.0, r.value.1;
    assert |x| == |a|;
    assert x == s[..|a|] == a;
    assert y == s[|a| + 1..] == b;
  }

  lemma StripPrefixOf(prefix: string, rest: string)
    ensures StripPrefix(prefix + rest, prefix) == Some(rest)
  {
    assert (prefix + rest)[..|prefix|] == prefix;
  }

  /** The right-to-left reading of a candles path; it sees the separators only. */
  lemma ParseCandlesPathOf(product: string, start: string, end: string, granularity: I64)
    requires SeparatorFree(start) && SeparatorFree(end)
    ensures ParseCandlesPath(product + CandlesTail(start, end, granularity))
         == Some(Candles(product, start, end, granularity))
  {
    var d := FromInt(granularity);
    var startPart := product + ['/'] + (StartKey + start);
    var endPart := startPart + ['&'] + (EndKey + end);
    var path := endPart + ['&'] + (GranularityKey + d);
    AssembleCandlesPath(path, endPart, startPart, product, start, end, granularity);
    assert '&' !in d by {
      assert forall i :: 0 <= i < |d| ==> IsDigit(d[i]) || d[i] == '-';
    }
    CandlesPathSplits(product, start, end, d);
    ParseOfFromInt(granularity);
    ParseCandlesPathOfParts(path, endPart, startPart, product, start, end, d, granularity);
  }

  /** Where the three right-to-left splits of a candles path fall. */
  lemma CandlesPathSplits(product: string, start: string, end: string, d: string)
    requires SeparatorFree(start) && SeparatorFree(end) && '&' !in d
    ensures var startPart := product + ['/'] + (StartKey + start);
            var endPart := startPart + ['&'] + (EndKey + end);
            && SplitLast(endPart + ['&'] + (GranularityKey + d), '&') == Some((endPart, GranularityKey + d))
            && SplitLast(endPart, '&') == Some((startPart, EndKey + end))
            && SplitLast(startPart, '/') == Some((product, StartKey + start))
  {
    var startPart := product + ['/'] + (StartKey + start);
    var endPart := startPart + ['&'] + (EndKey + end);
    assert '&' !in GranularityKey + d;
    SplitLastOf(endPart, '&', GranularityKey + d);
    assert '&' !in EndKey + end;
    SplitLastOf(startPart, '&', EndKey + end);
    assert '/' !in StartKey + start;
    SplitLastOf(product, '/', StartKey + start);
  }

  /** One step of `ParseCandlesPath` per hypothesis. */
  lemma ParseCandlesPathOfParts(path: string, endPart: string, startPart: string, product: string,
                                start: string, end: string, d: string, granularity: I64)
    requires SplitLast(path, '&') == Some((endPart, GranularityKey + d))
    requires Parse(d) == Some(granularity)
    requires SplitLast(endPart, '&') == Some((startPart, EndKey + end))
    requires SplitLast(startPart, '/') == Some((product, StartKey + start))
    ensures ParseCandlesPath(path) == Some(Candles(product, start, end, granularity))
  {
    StripPrefixOf(GranularityKey, d);
    StripPrefixOf(EndKey, end);
    StripPrefixOf(StartKey, start);
  }

  /** The tail of a candles URL is never mistaken for an order-book tail: before the
      final digit a book tail has `level=`, a candles tail `granularity=` or more digits. */
  lemma CandlesPathIsNotBookPath(path: string, granularity: I64, l: Level)
    requires EndsWith(path, "&" + GranularityKey + FromInt(granularity))
    ensures !EndsWith(path, BookTail(l))
  {
    var d := FromInt(granularity);
    var g := "&" + GranularityKey + d;
    var b := BookTail(l);
    assert |b| == 13 && b[11] == '=' && b[10] == 'l';
    assert path[|path| - |g|..] == g;
    if |d| == 1 {
      assert g[|g| - 3] == 'y';
      assert path[|path| - 3] == 'y';
    } else {
      assert g[|g| - 2] == d[|d| - 2];
      assert path[|path| - 2] != '=';
    }
  }

  lemma StripSuffixOf(rest: string, suffix: string)
    ensures StripSuffix(rest + suffix, suffix) == Some(rest)
  {
    assert (rest + suffix)[..|rest|] == rest;
  }

  lemma ParseTickerPath(product: string)
    ensures ParseProductPath(product + "/ticker") == Some(Ticker(product))
  {
    StripSuffixOf(product, "/ticker");
  }

  lemma ParseTradesPath(product: string)
    ensures ParseProductPath(product + "/trades") == Some(Trades(product))
  {
    var path := product + "/trades";
    NotEndsWithOtherLastChar(path, "/ticker");
    StripSuffixOf(product, "/trades");
  }

  lemma ParseBookPath(product: string, l: Level)
    ensures ParseProductPath(product + BookTail(l)) == Some(Book(product, l))
  {
    var path := product + BookTail(l);
    assert path[|path| - 1] == DigitChar(Discriminant(l));
    NotEndsWithOtherLastChar(path, "/ticker");
    NotEndsWithOtherLastChar(path, "/trades");
    if l != Best {
      NotEndsWithOtherLastChar(path, BookTail(Best));
    }
    if l == Full {
      NotEndsWithOtherLastChar(path, BookTail(Top50));
    }
    StripSuffixOf(product, BookTail(l));
  }

  lemma ParseCandlesProductPath(product: string, start: string, end: string, granularity: I64)
    requires SeparatorFree(start) && SeparatorFree(end)
    ensures ParseProductPath(product + CandlesTail(start, end, granularity))
         == Some(Candles(product, start, end, granularity))
  {
    var path := product + CandlesTail(start, end, granularity);
    var d := FromInt(granularity);
    assert path[|path| - 1] == d[|d| - 1];
    NotEndsWithOtherLastChar(path, "/ticker");
    NotEndsWithOtherLastChar(path, "/trades");
    CandlesTailEnds(product, start, end, granularity);
    CandlesPathIsNotBookPath(path, granularity, Best);
    CandlesPathIsNotBookPath(path, granularity, Top50);
    CandlesPathIsNotBookPath(path, granularity, Full);
    ParseCandlesPathOf(product, start, end, granularity);
  }

  lemma ParseProductPathOf(e: Endpoint)
    requires !e.Products? && WellFormed(e)
    ensures ParseProductPath(e.product + Tail(e)) == Some(e)
  {
    match e
    case Ticker(p) => ParseTickerPath(p);
    case Trades(p) => ParseTradesPath(p);
    case Book(p, l) => ParseBookPath(p, l);
    case Candles(p, s, t, g) => ParseCandlesProductPath(p, s, t, g);
  }

  /** Round trip: the operation and every argument can be read back from the URL
      (for candles, provided the timestamps hold no `&` or `/`). */
  lemma ParseUrlOfUrl(e: Endpoint)
    requires WellFormed(e)
    ensures ParseUrl(Url(e)) == Some(e)
  {
    if e.Products? {
      ParseProductsUrl();
    } else {
      ParseProductUrl(e);
    }
  }

  lemma ParseProductsUrl()
    ensures ParseUrl(ProductsUrl) == Some(Products)
  {
    StripPrefixOf(ProductsUrl, []);
    assert ProductsUrl + [] == ProductsUrl;
  }

  lemma ProductUrlSplit(product: string, tail: string)
    ensures ProductUrl(product, tail) == ProductsUrl + ("/" + (product + tail))
  {
    var base := ProductsUrl;
    var slash: string := "/";
    assert base + slash + product == base + (slash + product);
    assert base + (slash + product) + tail == base + (slash + product + tail);
    assert slash + product + tail == slash + (product + tail);
  }

  lemma ParseProductUrl(e: Endpoint)
    requires !e.Products? && WellFormed(e)
    ensures ParseUrl(Url(e)) == Some(e)
  {
    var path := e.product + Tail(e);
    var rest := "/" + path;
    assert Url(e) == ProductUrl(e.product, Tail(e));
    ProductUrlSplit(e.product, Tail(e));
    StripPrefixOf(ProductsUrl, rest);
    StripPrefixOf("/", path);
    ParseProductPathOf(e);
  }

  /** The pieces `ParseCandlesPath` reads reassemble into the path it read. */
  lemma CandlesPathOfParse(path: string)
    requires ParseCandlesPath(path).Some?
    ensures ParseCandlesPath(path).value.Candles?
    ensures var e := ParseCandlesPath(path).value; e.product + Tail(e) == path
  {
    var split1 := SplitLast(path, '&').value;
    var gtext := StripPrefix(split1.1, GranularityKey).value;
    var g := Parse(gtext).value;
    var split2 := SplitLast(split1.0, '&').value;
    var end := StripPrefix(split2.1, EndKey).value;
    var split3 := SplitLast(split2.0, '/').value;
    var start := StripPrefix(split3.1, StartKey).value;
    var product := split3.0;
    assert ParseCandlesPath(path) == Some(Candles(product, start, end, g));
    assert gtext == FromInt(g) by {
      ParseIffFromInt(gtext, g);
    }
    assert path == split1.0 + ['&'] + (GranularityKey + gtext);
    assert split1.0 == split2.0 + ['&'] + (EndKey + end);
    assert split2.0 == product + ['/'] + (StartKey + start);
    AssembleCandlesPath(path, split1.0, split2.0, product, start, end, g);
  }

  lemma AssembleCandlesPath(path: string, front: string, startPart: string, product: string,
                            start: string, end: string, g: I64)
    requires path == front + ['&'] + (GranularityKey + FromInt(g))
    requires front == startPart + ['&'] + (EndKey + end)
    requires startPart == product + ['/'] + (StartKey + start)
    ensures path == product + CandlesTail(start, end, g)
  {
    var s1, e1, g1 := StartKey + start, EndKey + end, GranularityKey + FromInt(g);
    var t1 := "/" + s1;
    var t2 := t1 + "&" + e1;
    var t3 := t2 + "&" + g1;
    assert CandlesTail(start, end, g) == t3 by {
      AppendAssoc("/", StartKey, start);
      AppendAssoc(t1 + "&", EndKey, end);
      AppendAssoc(t2 + "&", GranularityKey, FromInt(g));
    }
    assert startPart == product + t1 by {
      AppendAssoc(product, "/", s1);
    }
    assert front == product + t2 by {
      AppendAssoc(product + t1, "&", e1);
      AppendAssoc(product, t1 + "&", e1);
      AppendAssoc(product, t1, "&");
    }
    assert path == product + t3 by {
      AppendAssoc(product + t2, "&", g1);
      AppendAssoc(product, t2 + "&", g1);
      AppendAssoc(product, t2, "&");
    }
  }

  lemma AppendAssoc(a: string, b: string, c: string)
    ensures a + b + c == a + (b + c)
  {
  }

  lemma ProductPathOfParse(path: string)
    requires ParseProductPath(path).Some?
    ensures !ParseProductPath(path).value.Products?
    ensures var e := ParseProductPath(path).value; e.product + Tail(e) == path
  {
    if !EndsWith(path, "/ticker") && !EndsWith(path, "/trades")
       && !EndsWith(path, BookTail(Best)) && !EndsWith(path, BookTail(Top50))
       && !EndsWith(path, BookTail(Full))
    {
      CandlesPathOfParse(path);
    }
  }

  /** Converse round trip: whatever `ParseUrl` accepts is exactly the URL of the
      operation it returns, so `ParseUrl` reads only URLs the client can build. */
  lemma UrlOfParseUrl(u: string)
    requires ParseUrl(u).Some?
    ensures Url(ParseUrl(u).value) == u
  {
    var rest := StripPrefix(u, ProductsUrl).value;
    if rest == [] {
      assert u == ProductsUrl + [] == ProductsUrl;
    } else {
      var path := StripPrefix(rest, "/").value;
      var e := ParseProductPath(path).value;
      ProductPathOfParse(path);
      assert Url(e) == ProductUrl(e.product, Tail(e));
      ProductUrlSplit(e.product, Tail(e));
    }
  }

  /** Distinct well-formed operations are requested at distinct URLs. */
  lemma UrlInjective(e1: Endpoint, e2: Endpoint)
    requires WellFormed(e1) && WellFormed(e2)
    ensures Url(e1) == Url(e2) <==> e1 == e2
  {
    ParseUrlOfUrl(e1);
    ParseUrlOfUrl(e2);
  }

  /** Every URL begins with the products listing URL, that is, with the fixed base
      followed by `/products`. */
  lemma UrlStartsWithProducts(e: Endpoint)
    ensures StartsWith(Url(e), ProductsUrl)
    ensures StartsWith(Url(e), PublicApiUrl)
  {
    if e.Products? {
      assert ProductsUrl[..|ProductsUrl|] == ProductsUrl;
    } else {
      assert Url(e) == ProductUrl(e.product, Tail(e));
      ProductUrlSplit(e.product, Tail(e));
      StartsWithConcat(ProductsUrl, "/" + (e.product + Tail(e)));
    }
    StartsWithConcat(PublicApiUrl, "/products");
    StartsWithTransitive(Url(e), ProductsUrl, PublicApiUrl);
  }

  lemma StartsWithConcat(a: string, b: string)
    ensures StartsWith(a + b, a)
  {
    assert (a + b)[..|a|] == a;
  }

  lemma StartsWithTransitive(s: string, t: string, u: string)
    requires StartsWith(s, t) && StartsWith(t, u)
    ensures StartsWith(s, u)
  {
    assert s[..|u|] == s[..|t|][..|u|];
  }

  /** The product symbol is copied into the URL unchanged, right after `/products/`,
      and the operation's tail follows it directly. */
  lemma ProductAppearsVerbatim(e: Endpoint)
    requires !e.Products?
    ensures StartsWith(Url(e), ProductsUrl + "/" + e.product)
    ensures Url(e)[|ProductsUrl| + 1 + |e.product|..] == Tail(e)
  {
    var u := Url(e);
    assert u == ProductUrl(e.product, Tail(e));
    var head := ProductsUrl + "/" + e.product;
    assert u == head + Tail(e);
    assert u[..|head|] == head;
  }

  /** The three order-book URLs of one product have the same length and agree at
      every position except the last, which is the level's discriminant digit. */
  lemma BookUrlsDifferOnlyInLevelDigit(product: string, l1: Level, l2: Level)
    ensures |BookUrl(product, l1)| == |BookUrl(product, l2)|
    ensures forall i :: 0 <= i < |BookUrl(product, l1)| - 1 ==> BookUrl(product, l1)[i] == BookUrl(product, l2)[i]
    ensures BookUrl(product, l1)[|BookUrl(product, l1)| - 1] == DigitChar(Discriminant(l1))
    ensures BookUrl(product, l1) == BookUrl(product, l2) <==> l1 == l2
  {
    var head := ProductsUrl + "/" + product + "/book?level=";
    assert BookUrl(product, l1) == head + LevelText(l1);
    assert BookUrl(product, l2) == head + LevelText(l2);
  }

  /** The best-price book of `ETH-USD`. */
  lemma BestBookExample()
    ensures BookUrl("ETH-USD", Best) == ProductsUrl + "/ETH-USD/book?level=1"
  {
    assert BookTail(Best) == "/book?level=1";
    AppendAssoc(ProductsUrl, "/", "ETH-USD");
    AppendAssoc(ProductsUrl, "/ETH-USD", "/book?level=1");
  }

  /** The full book of `ETH-USD`. */
  lemma FullBookExample()
    ensures BookUrl("ETH-USD", Full) == ProductsUrl + "/ETH-USD/book?level=3"
  {
    assert BookTail(Full) == "/book?level=3";
    AppendAssoc(ProductsUrl, "/", "ETH-USD");
    AppendAssoc(ProductsUrl, "/ETH-USD", "/book?level=3");
  }

  /** The `&`-free condition on timestamps is needed: without it two different
      candle requests share a URL. */
  lemma CandlesUrlAmbiguousWithoutSeparatorFreeTimes()
    ensures CandlesUrl("ETH-USD", "a&end=b", "c", 60) == CandlesUrl("ETH-USD", "a", "b&end=c", 60)
  {
  }
}
