/**
 `HTTPClient`: the lazily created connection, the header map computed once
 and shared by every request, the per-request `Authorization` and
 `Content-Type` headers, and the shaping of outcomes into result records.
 The network itself is an oracle: each request is handed its `Outcome`.
 */
module HttpClient {
  import opened Wrappers
  import opened Values
  import Decimal

  type Headers = map<string, string>

  const BaseHeaders: Headers := map[
    "Accept" := "application/json",
    "X-Requested-With" := "manilua-Plugin",
    "Origin" := "https://store.steampowered.com",
    "Sec-Fetch-Dest" := "empty",
    "Sec-Fetch-Mode" := "cors",
    "Sec-Fetch-Site" := "cross-site"]

  const HttpxMissingMessage := "httpx library is not available. Please install httpx: pip install httpx"

  /** What the verification module does when asked for headers. */
  datatype Verification = Unavailable | Raises | Provides(headers: Headers)

  /**
   An `HTTPClient`: the httpx connection it holds (by identity), how many
   connections it has created so far, and the header cache.
   */
  datatype Client = Client(conn: Option<nat>, created: nat, cached: Option<Headers>)

  function NewClient(): (c: Client)
    ensures c.conn.None? && c.cached.None? && c.created == 0
  {
    Client(None, 0, None)
  }

  // ---------------------------------------------------------------------------
  // Headers

  /** The header map built on first use. */
  function ComputeHeaders(v: Verification, userAgent: string): (h: Headers)
    ensures forall k :: k in BaseHeaders ==> k in h
    ensures v.Provides? ==> forall k :: k in v.headers ==> k in h && h[k] == v.headers[k]
    ensures v.Provides? ==> forall k :: k in BaseHeaders && k !in v.headers ==> h[k] == BaseHeaders[k]
    ensures !v.Provides? ==> h == BaseHeaders["User-Agent" := userAgent]
  {
    match v
    case Provides(extra) => BaseHeaders + extra
    case _ => BaseHeaders["User-Agent" := userAgent]
  }

  datatype Got = Got(client: Client, headers: Headers)

  /** `_get_cached_headers`: computed on the first call, returned unchanged afterwards. */
  function CachedHeaders(c: Client, v: Verification, userAgent: string): (g: Got)
    ensures g.client.cached == Some(g.headers)
    ensures g.client.conn == c.conn && g.client.created == c.created
    ensures c.cached.Some? ==> g.headers == c.cached.value
    ensures c.cached.None? ==> g.headers == ComputeHeaders(v, userAgent)
  {
    match c.cached
    case Some(h) => Got(c, h)
    case None =>
      var h := ComputeHeaders(v, userAgent);
      Got(c.(cached := Some(h)), h)
  }

  /** Once computed, later calls see the same map whatever the verification module would now say. */
  lemma HeadersComputedOnce(c: Client, v1: Verification, ua1: string, v2: Verification, ua2: string)
    ensures var g1 := CachedHeaders(c, v1, ua1);
      var g2 := CachedHeaders(g1.client, v2, ua2);
      g2.headers == g1.headers && g2.client == g1.client
  {
  }

  /** A token counts when it is present and non-empty. */
  predicate Truthy(token: Option<string>)
  {
    token.Some? && |token.value| > 0
  }

  /** The headers of a request: a copy of the cache with a bearer token when one is given. */
  function WithAuth(cached: Headers, token: Option<string>): (h: Headers)
    ensures Truthy(token) ==> h == cached["Authorization" := "Bearer " + token.value]
    ensures !Truthy(token) ==> h == cached
    ensures forall k :: k != "Authorization" ==> (k in h <==> k in cached)
    ensures forall k :: k != "Authorization" && k in cached ==> h[k] == cached[k]
  {
    if Truthy(token) then cached["Authorization" := "Bearer " + token.value] else cached
  }

  // ---------------------------------------------------------------------------
  // Connection lifecycle

  datatype Ensured = Ensured(client: Client, conn: Option<nat>)

  /**
   `_ensure_client`: fails (no connection) when httpx is missing, otherwise
   reuses the held connection or creates one.
   */
  function EnsureClient(c: Client, httpx: bool): (e: Ensured)
    ensures !httpx ==> e.conn.None? && e.client == c
    ensures httpx && c.conn.Some? ==> e.conn == c.conn && e.client == c
    ensures httpx && c.conn.None? ==>
      e.conn == Some(c.created) && e.client == c.(conn := Some(c.created), created := c.created + 1)
  {
    if !httpx then Ensured(c, None)
    else match c.conn
      case Some(k) => Ensured(c, Some(k))
      case None => Ensured(c.(conn := Some(c.created), created := c.created + 1), Some(c.created))
  }

  /** A connection is created at most once until the client is closed. */
  lemma ConnectionCreatedOnce(c: Client)
    ensures var e1 := EnsureClient(c, true);
      var e2 := EnsureClient(e1.client, true);
      e2.conn == e1.conn && e2.client == e1.client && e1.client.created <= c.created + 1
  {
  }

  /** `close`: the connection is dropped whatever closing it did. */
  function Close(c: Client): (r: Client)
    ensures r.conn.None? && r.cached == c.cached && r.created == c.created
  {
    c.(conn := None)
  }

  lemma CloseIdempotent(c: Client)
    ensures Close(Close(c)) == Close(c)
  {
  }

  /** After a close, the next request opens a connection that was never used before. */
  lemma ReopenIsFresh(c: Client)
    requires c.conn.None? || c.conn.value < c.created
    ensures var e := EnsureClient(Close(c), true);
      e.conn.Some? && e.conn.value >= c.created && (c.conn.Some? ==> e.conn != c.conn)
  {
  }

  // ---------------------------------------------------------------------------
  // Requests and results

  /**
   What happened to a request once it was sent. A 2xx response whose body
   `response.json()` rejects raises inside `get`, so it is a `Crashed`
   outcome (`Unexpected error: ...`), not a `Responded` one.
   */
  datatype Outcome =
    | Responded(status: int, text: string, payload: Value)
    | RequestFailed(message: string)
    | Crashed(message: string)

  /** The result record of `get`, `get_binary` and `post`. */
  function Shape(o: Outcome): (r: Fields)
    ensures Has(r, "success", VBool(o.Responded? && 200 <= o.status < 300))
    ensures "status_code" in r <==> o.Responded?
    ensures "error" in r <==> !(o.Responded? && 200 <= o.status < 300)
    ensures "data" in r <==> (o.Responded? && 200 <= o.status < 300)
    ensures o.Responded? ==> Has(r, "status_code", VInt(o.status))
    ensures o.Responded? && 200 <= o.status < 300 ==> Has(r, "data", o.payload)
    ensures o.Responded? && !(200 <= o.status < 300) ==>
      Has(r, "error", VStr("HTTP " + Decimal.IntToString(o.status) + ": " + o.text))
    ensures o.RequestFailed? ==> Has(r, "error", VStr("Request error: " + o.message))
    ensures o.Crashed? ==> Has(r, "error", VStr("Unexpected error: " + o.message))
  {
    match o
    case Responded(status, text, payload) =>
      if 200 <= status < 300 then
        map["success" := VBool(true), "data" := payload, "status_code" := VInt(status)]
      else
        map["success" := VBool(false), "error" := VStr("HTTP " + Decimal.IntToString(status) + ": " + text),
            "status_code" := VInt(status)]
    case RequestFailed(m) => map["success" := VBool(false), "error" := VStr("Request error: " + m)]
    case Crashed(m) => map["success" := VBool(false), "error" := VStr("Unexpected error: " + m)]
  }

  /**
   A result record tells which kind of outcome produced it: only a response
   carries `status_code`, and the two exceptions differ in the first letter of
   their `error`.
   */
  lemma ShapeTellsOutcome(o1: Outcome, o2: Outcome)
    requires Shape(o1) == Shape(o2)
    ensures o1.Responded? <==> o2.Responded?
    ensures o1.RequestFailed? <==> o2.RequestFailed?
    ensures o1.Crashed? <==> o2.Crashed?
  {
    if !o1.Responded? && !o2.Responded? {
      var e1, e2 := Shape(o1)["error"].s, Shape(o2)["error"].s;
      assert e1[0] == (if o1.RequestFailed? then 'R' else 'U');
      assert e2[0] == (if o2.RequestFailed? then 'R' else 'U');
    }
  }

  /** What one request did: the client afterwards, the headers sent (none when no request left), the result. */
  datatype Exchange = Exchange(client: Client, sent: Option<Headers>, result: Fields)

  /** `get` and `get_binary`: they differ only in what the payload holds. */
  function Get(c: Client, httpx: bool, v: Verification, userAgent: string, token: Option<string>, o: Outcome): (x: Exchange)
    ensures !httpx ==>
      x.sent.None? && x.client == c && x.result == Shape(Crashed(HttpxMissingMessage))
    ensures httpx ==>
      && x.sent.Some? && x.result == Shape(o)
      && x.client.cached == CachedHeaders(c, v, userAgent).client.cached
      && x.sent.value == WithAuth(x.client.cached.value, token)
  {
    var e := EnsureClient(c, httpx);
    if e.conn.None? then Exchange(c, None, Shape(Crashed(HttpxMissingMessage)))
    else
      var g := CachedHeaders(e.client, v, userAgent);
      Exchange(g.client, Some(WithAuth(g.headers, token)), Shape(o))
  }

  /** `stream_get`: the same headers as `get`; the response is the caller's. */
  function StreamGet(c: Client, v: Verification, userAgent: string, token: Option<string>): (x: Got)
    ensures x.client.cached == CachedHeaders(c, v, userAgent).client.cached
    ensures x.headers == WithAuth(x.client.cached.value, token)
  {
    var e := EnsureClient(c, true);
    var g := CachedHeaders(e.client, v, userAgent);
    Got(g.client, WithAuth(g.headers, token))
  }

  /** A request never changes the cached headers it was built from: the bearer token goes on a copy. */
  lemma GetLeavesCache(c: Client, v: Verification, ua: string, token: Option<string>, o: Outcome)
    requires c.cached.Some?
    ensures Get(c, true, v, ua, token, o).client.cached == c.cached
    ensures var sent := Get(c, true, v, ua, token, o).sent.value;
      && (Truthy(token) ==> sent == c.cached.value["Authorization" := "Bearer " + token.value])
      && (!Truthy(token) ==> sent == c.cached.value)
    ensures "Authorization" !in c.cached.value ==>
      (Truthy(token) <==> "Authorization" in Get(c, true, v, ua, token, o).sent.value)
  {
  }

  /** `stream_get` sends what `get` would send and leaves the same client behind. */
  lemma StreamGetMatchesGet(c: Client, v: Verification, ua: string, token: Option<string>, o: Outcome)
    ensures var s := StreamGet(c, v, ua, token);
      var x := Get(c, true, v, ua, token, o);
      x.sent == Some(s.headers) && x.client == s.client
    ensures c.cached.Some? ==> StreamGet(c, v, ua, token).client.cached == c.cached
  {
  }

  const JsonContentType := "application/json"

  /**
   `post` as written: without a token the request headers ARE the cached map,
   so adding `Content-Type` for a non-empty body writes it into the cache.
   */
  function Post(c: Client, httpx: bool, v: Verification, userAgent: string, token: Option<string>, data: Fields, o: Outcome): (x: Exchange)
    ensures !httpx ==> x.sent.None? && x.client == c
    ensures httpx ==> x.sent.Some? && x.result == Shape(o)
    ensures !httpx ==> x.result == Shape(Crashed(HttpxMissingMessage))
    ensures httpx && |data| > 0 ==> Has(MapOfHeaders(x.sent.value), "Content-Type", VStr(JsonContentType))
    ensures httpx ==> var h := WithAuth(CachedHeaders(c, v, userAgent).headers, token);
      x.sent.value == (if |data| > 0 then h["Content-Type" := JsonContentType] else h)
    ensures httpx ==>
      x.client.cached == (if !Truthy(token) && |data| > 0 then x.sent else CachedHeaders(c, v, userAgent).client.cached)
  {
    var e := EnsureClient(c, httpx);
    if e.conn.None? then Exchange(c, None, Shape(Crashed(HttpxMissingMessage)))
    else
      var g := CachedHeaders(e.client, v, userAgent);
      assert g.headers == CachedHeaders(c, v, userAgent).headers;
      assert g.client.cached == CachedHeaders(c, v, userAgent).client.cached;
      var h := WithAuth(g.headers, token);
      var sent := if |data| > 0 then h["Content-Type" := JsonContentType] else h;
      // Without a token `h` is the cached map itself, so the change lands in the cache.
      var shared := !Truthy(token) && |data| > 0;
      Exchange(if shared then g.client.(cached := Some(sent)) else g.client, Some(sent), Shape(o))
  }

  /** `post` with the headers copied before any change, so the cache stays as computed. */
  function PostIsolated(c: Client, httpx: bool, v: Verification, userAgent: string, token: Option<string>, data: Fields, o: Outcome): (x: Exchange)
    ensures !httpx ==> x.sent.None? && x.client == c
    ensures httpx ==>
      && x.sent.Some? && x.result == Shape(o)
      && x.client.cached == CachedHeaders(c, v, userAgent).client.cached
    ensures httpx ==> var h := WithAuth(x.client.cached.value, token);
      x.sent.value == (if |data| > 0 then h["Content-Type" := JsonContentType] else h)
  {
    var e := EnsureClient(c, httpx);
    if e.conn.None? then Exchange(c, None, Shape(Crashed(HttpxMissingMessage)))
    else
      var g := CachedHeaders(e.client, v, userAgent);
      var h := WithAuth(g.headers, token);
      Exchange(g.client, Some(if |data| > 0 then h["Content-Type" := JsonContentType] else h), Shape(o))
  }

  /** Header maps viewed as field maps, to state header facts with `Has`. */
  function MapOfHeaders(h: Headers): (m: Fields)
    ensures m.Keys == h.Keys
    ensures forall k :: k in h ==> m[k] == VStr(h[k])
  {
    map k | k in h :: VStr(h[k])
  }

  /**
   The leak: after a token-less `post` with a body, a later token-less `get`
   sends `Content-Type: application/json` although `get` never sets it.
   */
  lemma PostLeaksContentType(c: Client, v: Verification, ua: string, data: Fields, o1: Outcome, o2: Outcome)
    requires |data| > 0
    requires c.cached.Some? && "Content-Type" !in c.cached.value
    ensures var after := Post(c, true, v, ua, None, data, o1).client;
      var sent := Get(after, true, v, ua, None, o2).sent.value;
      "Content-Type" in sent && "Content-Type" !in c.cached.value
  {
  }

  /** With the corrected `post`, a later `get` sends exactly what it would have sent without the `post`. */
  lemma IsolatedPostKeepsGet(c: Client, v: Verification, ua: string, token: Option<string>, data: Fields, o1: Outcome, o2: Outcome)
    ensures var after := PostIsolated(c, true, v, ua, token, data, o1).client;
      Get(after, true, v, ua, None, o2).sent == Get(c, true, v, ua, None, o2).sent
  {
  }

  // ---------------------------------------------------------------------------
  // The process-wide client

  /** The module-level `_global_client`: the current instance (by identity) and how many were made. */
  datatype Globals = Globals(current: Option<nat>, made: nat)

  datatype Handle = Handle(instance: nat, globals: Globals)

  /** `get_global_client`. */
  function GetGlobal(g: Globals): (h: Handle)
    ensures h.globals.current == Some(h.instance)
    ensures g.current.Some? ==> h.instance == g.current.value && h.globals == g
    ensures g.current.None? ==> h.instance == g.made && h.globals.made == g.made + 1
  {
    match g.current
    case Some(k) => Handle(k, g)
    case None => Handle(g.made, Globals(Some(g.made), g.made + 1))
  }

  /** `close_global_client`. */
  function CloseGlobal(g: Globals): (r: Globals)
    ensures r.current.None? && r.made == g.made
  {
    Globals(None, g.made)
  }

  /** Repeated calls hand out one instance; after a close the next call hands out a new one. */
  lemma GlobalSingleton(g: Globals)
    requires g.current.None? || g.current.value < g.made
    ensures var h1 := GetGlobal(g);
      GetGlobal(h1.globals).instance == h1.instance
    ensures var h1 := GetGlobal(g);
      GetGlobal(CloseGlobal(h1.globals)).instance != h1.instance
  {
  }
}
