/** The client: one GET per operation, classified into a value or one of three
    disjoint errors. The transport and the body decoder are parameters. */
module Client {
  import opened Wrappers
  import opened JsonValues
  import opened Endpoints

  type Bytes = seq<bv8>

  /** An HTTP status code (`u16`). */
  type StatusCode = x: int | 0 <= x < 0x1_0000

  /** The 2xx range. */
  predicate IsSuccess(status: StatusCode): (b: bool)
    ensures b <==> status / 100 == 2
  {
    200 <= status <= 299
  }

  /** A failure of the transport itself (connection, TLS, ...), kept opaque. */
  datatype HttpError = HttpError(description: string)

  /** What the transport hands back for one GET. */
  datatype Transport =
    | TransportFailed(cause: HttpError)
    | Response(status: StatusCode, body: Bytes)

  /** The error taxonomy returned to callers. */
  datatype Error =
    | Api
    | Http(httpCause: HttpError)
    | Json(jsonCause: JsonError)

  /** The conversion `?` applies to a transport error. */
  function FromHttp(e: HttpError): (r: Error)
    ensures r.Http? && r.httpCause == e
  {
    Http(e)
  }

  /** The conversion `?` applies to a decode error. */
  function FromJson(e: JsonError): (r: Error)
    ensures r.Json? && r.jsonCause == e
  {
    Json(e)
  }

  /** Fetch-then-decode. A transport failure is `Http`; a response whose status is
      not 2xx is `Api` whatever its body, and the decoder is not consulted; otherwise
      the decoder's verdict on the body decides between `Json` and success. */
  function GetAndDecode<T>(t: Transport, decode: Bytes -> Result<T, JsonError>): (r: Result<T, Error>)
    ensures t.TransportFailed? <==> r.Failure? && r.error.Http?
    ensures t.TransportFailed? ==> r.error == Http(t.cause)
    ensures r == Failure(Api) <==> t.Response? && !IsSuccess(t.status)
    ensures r.Failure? && r.error.Json? <==>
              t.Response? && IsSuccess(t.status) && decode(t.body).Failure?
    ensures r.Failure? && r.error.Json? ==> decode(t.body) == Failure(r.error.jsonCause)
    ensures r.Success? <==> t.Response? && IsSuccess(t.status) && decode(t.body).Success?
    ensures r.Success? ==> decode(t.body) == Success(r.value)
  {
    match t
    case TransportFailed(e) => Failure(FromHttp(e))
    case Response(status, body) =>
      if !IsSuccess(status) then Failure(Api)
      else
        match decode(body)
        case Success(v) => Success(v)
        case Failure(e) => Failure(FromJson(e))
  }

  /** One public operation: build its URL, hand it to the transport, classify. */
  function Call<T>(fetch: string -> Transport, e: Endpoint, decode: Bytes -> Result<T, JsonError>): (r: Result<T, Error>)
    ensures fetch(Url(e)).TransportFailed? <==> r.Failure? && r.error.Http?
    ensures fetch(Url(e)).TransportFailed? ==> r == Failure(Http(fetch(Url(e)).cause))
    ensures r == Failure(Api) <==> fetch(Url(e)).Response? && !IsSuccess(fetch(Url(e)).status)
    ensures r.Failure? && r.error.Json? <==>
              fetch(Url(e)).Response? && IsSuccess(fetch(Url(e)).status)
              && decode(fetch(Url(e)).body).Failure?
    ensures r.Failure? && r.error.Json? ==> decode(fetch(Url(e)).body) == Failure(r.error.jsonCause)
    ensures r.Success? <==> fetch(Url(e)).Response? && IsSuccess(fetch(Url(e)).status)
                            && decode(fetch(Url(e)).body).Success?
    ensures r.Success? ==> decode(fetch(Url(e)).body) == Success(r.value)
  {
    GetAndDecode(fetch(Url(e)), decode)
  }

  /** A non-2xx status short-circuits: the result is `Api` for every body and every
      decoder, so the decoder's behaviour cannot influence it. */
  lemma NonSuccessIgnoresBodyAndDecoder<T>(status: StatusCode, body1: Bytes, body2: Bytes,
                                          decode1: Bytes -> Result<T, JsonError>,
                                          decode2: Bytes -> Result<T, JsonError>)
    requires !IsSuccess(status)
    ensures GetAndDecode(Response(status, body1), decode1) == Failure(Api)
    ensures GetAndDecode(Response(status, body1), decode1) == GetAndDecode(Response(status, body2), decode2)
  {
  }

  /** The decoder is consulted on the received body only: decoders that agree on it
      give the same result. */
  lemma DecoderSeesOnlyTheBody<T>(t: Transport, decode1: Bytes -> Result<T, JsonError>,
                                  decode2: Bytes -> Result<T, JsonError>)
    requires t.Response? ==> decode1(t.body) == decode2(t.body)
    ensures GetAndDecode(t, decode1) == GetAndDecode(t, decode2)
  {
  }

  /** An operation requests its own URL and no other: transports that answer that URL
      alike give the same result. */
  lemma CallDependsOnlyOnItsUrl<T>(fetch1: string -> Transport, fetch2: string -> Transport,
                                   e: Endpoint, decode: Bytes -> Result<T, JsonError>)
    requires fetch1(Url(e)) == fetch2(Url(e))
    ensures Call(fetch1, e, decode) == Call(fetch2, e, decode)
  {
  }

  /** A 500 with an empty body is an API error, not a decode error. */
  lemma ServerErrorExample<T>(decode: Bytes -> Result<T, JsonError>)
    ensures GetAndDecode(Response(500, []), decode) == Failure(Api)
  {
  }
}
