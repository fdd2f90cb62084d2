/** The authenticated HTTP client: the bearer header computed from local
    storage, the request interceptor that refreshes it on every request, and
    the GET/POST/PUT/DELETE wrappers that return a response's data or rethrow
    its error. The transport itself is a parameter: each wrapper receives the
    way the underlying client call settled. */
module ApiService {
  import opened Web

  const AuthorizationHeader := "Authorization"
  const BearerPrefix := "Bearer "

  /** Where the code runs: on the server, where there is no `window`, or in a
      browser whose local storage holds `accessToken` (None when `getItem`
      returns null). */
  datatype Context = ServerSide | Browser(accessToken: Option<string>)

  /** `typeof window !== "undefined"`: the code runs in a browser. */
  predicate HasWindow(ctx: Context) {
    ctx.Browser?
  }

  /** `typeof window !== "undefined"` and a stored token that is truthy, that
      is, present and non-empty. Outside a browser storage is never read. */
  predicate HasToken(ctx: Context): (b: bool)
    ensures !HasWindow(ctx) ==> !b
    ensures b ==> ctx.accessToken.Some? && |ctx.accessToken.value| > 0
  {
    HasWindow(ctx) && ctx.accessToken.Some? && ctx.accessToken.value != ""
  }

  /** The value of the `Authorization` header for a token. */
  function Bearer(token: string): (v: string)
    ensures |v| == |BearerPrefix| + |token|
    ensures v[..|BearerPrefix|] == BearerPrefix && v[|BearerPrefix|..] == token
  {
    BearerPrefix + token
  }

  /** `getAuthHeaders()`: exactly the bearer header when a browser holds a
      non-empty token, and no header at all otherwise. */
  function GetAuthHeaders(ctx: Context): (headers: map<string, string>)
    ensures AuthorizationHeader in headers <==> HasToken(ctx)
    ensures headers.Keys <= {AuthorizationHeader}
    ensures HasToken(ctx) ==> headers[AuthorizationHeader] == Bearer(ctx.accessToken.value)
  {
    if HasWindow(ctx) then
      match ctx.accessToken
      case Some(token) =>
        if token != "" then map[AuthorizationHeader := Bearer(token)] else map[]
      case None => map[]
    else
      map[]
  }

  /** The token carried by a header set: the `Authorization` value with its
      `Bearer ` prefix removed, if it has one. This is a specification helper,
      the inverse of `Bearer`, used to state what the headers carry; the
      client itself never reads a token back out of its headers. */
  function TokenOf(headers: map<string, string>): (token: Option<string>)
    ensures token.Some? ==> AuthorizationHeader in headers
                            && headers[AuthorizationHeader] == Bearer(token.value)
  {
    if AuthorizationHeader in headers
       && |BearerPrefix| <= |headers[AuthorizationHeader]|
       && headers[AuthorizationHeader][..|BearerPrefix|] == BearerPrefix
    then
      assert headers[AuthorizationHeader] == BearerPrefix + headers[AuthorizationHeader][|BearerPrefix|..];
      Some(headers[AuthorizationHeader][|BearerPrefix|..])
    else
      None
  }

  /** The header set `getAuthHeaders()` builds carries back exactly the
      stored token, and none when it added no header. */
  lemma GetAuthHeadersCarriesToken(ctx: Context)
    ensures TokenOf(GetAuthHeaders(ctx)) == if HasToken(ctx) then Some(ctx.accessToken.value) else None
  {
  }

  /** The header set after the interceptor: with a token and a headers
      object, `Authorization` is set from the token read now, overwriting any
      earlier value; every other header is kept. Without a browser, a token or
      a headers object, the headers are returned unchanged. */
  function Intercepted(headers: Option<map<string, string>>, ctx: Context): (r: Option<map<string, string>>)
    ensures r.Some? <==> headers.Some?
    ensures !(HasToken(ctx) && headers.Some?) ==> r == headers
    ensures HasToken(ctx) && headers.Some? ==>
      && r.value.Keys == headers.value.Keys + {AuthorizationHeader}
      && r.value[AuthorizationHeader] == Bearer(ctx.accessToken.value)
      && forall k :: k in headers.value && k != AuthorizationHeader ==> r.value[k] == headers.value[k]
  {
    if HasToken(ctx) && headers.Some? then
      Some(headers.value[AuthorizationHeader := Bearer(ctx.accessToken.value)])
    else
      headers
  }

  /** An axios request configuration; its headers object may be missing. */
  class RequestConfig {
    var headers: Option<map<string, string>>

    constructor (headers: Option<map<string, string>>)
      ensures this.headers == headers
    {
      this.headers := headers;
    }
  }

  /** The interceptor's success callback: it updates the configuration's
      headers in place and returns the same configuration. */
  method OnRequest(config: RequestConfig, ctx: Context) returns (r: RequestConfig)
    modifies config
    ensures r == config
    ensures config.headers == Intercepted(old(config.headers), ctx)
  {
    if HasWindow(ctx) {
      var accessToken := ctx.accessToken;
      if accessToken.Some? && accessToken.value != "" && config.headers.Some? {
        config.headers := Some(config.headers.value[AuthorizationHeader := Bearer(accessToken.value)]);
      }
    }
    r := config;
  }

  /** The interceptor's error callback: it rejects with the error it got. */
  function OnRequestError<C, E>(error: E): (r: Settled<C, E>)
    ensures r.Rejected? && r.reason == error
  {
    Rejected(error)
  }

  /** On an empty headers object the interceptor builds what
      `getAuthHeaders()` would. */
  lemma InterceptedAgreesWithGetAuthHeaders(ctx: Context)
    ensures Intercepted(Some(map[]), ctx) == Some(GetAuthHeaders(ctx))
  {
  }

  /** Running the interceptor twice with the same storage is running it once. */
  lemma InterceptedIdempotent(headers: Option<map<string, string>>, ctx: Context)
    ensures Intercepted(Intercepted(headers, ctx), ctx) == Intercepted(headers, ctx)
  {
    if HasToken(ctx) && headers.Some? {
      var once := Intercepted(headers, ctx).value;
      assert once[AuthorizationHeader := Bearer(ctx.accessToken.value)] == once;
    }
  }

  /** The client is built with `getAuthHeaders()` as its default headers, so
      a request's headers start as that set. When storage holds no token at
      request time, the header from construction time is sent as it was; when
      it holds one, the token sent is the one read at request time. */
  lemma ConstructionHeaderPersists(atConstruction: Context, atRequest: Context)
    ensures !HasToken(atRequest) ==>
      Intercepted(Some(GetAuthHeaders(atConstruction)), atRequest) == Some(GetAuthHeaders(atConstruction))
    ensures HasToken(atRequest) ==>
      TokenOf(Intercepted(Some(GetAuthHeaders(atConstruction)), atRequest).value) == Some(atRequest.accessToken.value)
  {
  }

  /** A response of the underlying client. */
  datatype Response<+T> = Response(status: int, data: T)

  /** The request a wrapper hands to the client: the verb, the relative URL,
      and the query parameters (GET) or body (POST, PUT). */
  datatype ApiRequest<+U> = ApiRequest(verb: Verb, url: string, payload: Option<U>)

  /** What a wrapper call did: the request it issued and how its own promise
      settled. */
  datatype Call<+U, +T, +E> = Call(request: ApiRequest<U>, result: Settled<T, E>)

  /** The shared `try { return response.data } catch (error) { throw error }`:
      the data on success, the very same error on failure. */
  function Unwrap<T, E>(transport: Settled<Response<T>, E>): (r: Settled<T, E>)
    ensures r.Fulfilled? <==> transport.Fulfilled?
    ensures transport.Fulfilled? ==> r.value == transport.value.data
    ensures transport.Rejected? ==> r.reason == transport.reason
  {
    match transport
    case Fulfilled(response) => Fulfilled(response.data)
    case Rejected(error) => Rejected(error)
  }

  /** `GET(url, params)`. */
  function Get<U, T, E>(url: string, params: Option<U>, transport: Settled<Response<T>, E>): (c: Call<U, T, E>)
    ensures c.request.verb == GET && c.request.url == url && c.request.payload == params
    ensures c.result.Fulfilled? <==> transport.Fulfilled?
    ensures transport.Fulfilled? ==> c.result.value == transport.value.data
    ensures transport.Rejected? ==> c.result.reason == transport.reason
  {
    Call(ApiRequest(GET, url, params), Unwrap(transport))
  }

  /** `POST(url, data)`. */
  function Post<U, T, E>(url: string, data: U, transport: Settled<Response<T>, E>): (c: Call<U, T, E>)
    ensures c.request.verb == POST && c.request.url == url && c.request.payload == Some(data)
    ensures c.result.Fulfilled? <==> transport.Fulfilled?
    ensures transport.Fulfilled? ==> c.result.value == transport.value.data
    ensures transport.Rejected? ==> c.result.reason == transport.reason
  {
    Call(ApiRequest(POST, url, Some(data)), Unwrap(transport))
  }

  /** `PUT(url, data)`. */
  function Put<U, T, E>(url: string, data: U, transport: Settled<Response<T>, E>): (c: Call<U, T, E>)
    ensures c.request.verb == PUT && c.request.url == url && c.request.payload == Some(data)
    ensures c.result.Fulfilled? <==> transport.Fulfilled?
    ensures transport.Fulfilled? ==> c.result.value == transport.value.data
    ensures transport.Rejected? ==> c.result.reason == transport.reason
  {
    Call(ApiRequest(PUT, url, Some(data)), Unwrap(transport))
  }

  /** `DELETE(url)`. */
  function Delete<U, T, E>(url: string, transport: Settled<Response<T>, E>): (c: Call<U, T, E>)
    ensures c.request.verb == DELETE && c.request.url == url && c.request.payload == None
    ensures c.result.Fulfilled? <==> transport.Fulfilled?
    ensures transport.Fulfilled? ==> c.result.value == transport.value.data
    ensures transport.Rejected? ==> c.result.reason == transport.reason
  {
    Call(ApiRequest(DELETE, url, None), Unwrap(transport))
  }
}
