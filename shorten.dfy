/** The creation endpoint (src/pages/api/shorten.ts): check the method,
    validate the submitted URL, write `id -> url` to the store and answer
    `{"id": id}`. */
module ShortenApi {
  import opened Redis
  import opened Middleware

  /** What `nanoid(5)` returns: five characters of nanoid's URL-safe
      alphabet `A-Za-z0-9_-`. The random choice itself is the caller's. */
  predicate IsNanoId(id: string)
  {
    |id| == 5 && IsPathSafe(id)
  }

  /** `z.string().url()`: the URL check of the validation library is given as a
      parameter. All that is assumed of it is that it rejects the empty string,
      which no URL parser accepts. */
  type UrlValidator = f: string -> bool | !f("") witness (s: string) => false

  /** The `url` field of the parsed body: missing (`undefined`), a JSON value
      that is not a string, or a string. */
  datatype UrlField = Absent | NotAString | Text(s: string)

  /** The result of `await req.json()` followed by `body.url`: `Unreadable`
      when the body is not JSON or is JSON `null`, both of which throw. */
  datatype Body = Unreadable | Json(url: UrlField)

  datatype ApiRequest = ApiRequest(httpMethod: string, body: Body)

  /** A response: status, the `content-type` header when the handler sets one,
      and the body text. */
  datatype Response = Response(status: int, contentType: Option<string>, body: string)

  /** What the handler answers and what the store holds afterwards. */
  datatype Outcome = Outcome(response: Response, store: map<string, string>)

  const NotFound: Response := Response(404, None, "Not found")
  const BadRequest: Response := Response(400, None, "Bad request")

  /** The URL that passes validation, if any. */
  function ValidatedUrl(body: Body, isUrl: UrlValidator): (r: Option<string>)
    ensures r.Some? <==> body.Json? && body.url.Text? && isUrl(body.url.s)
    ensures r.Some? ==> r.value == body.url.s && r.value != ""
  {
    match body
    case Json(Text(s)) => if isUrl(s) then Some(s) else None
    case _ => None
  }

  /** `JSON.stringify({ id })` for an id that needs no escaping. */
  function IdJson(id: string): string
  {
    "{\"id\":\"" + id + "\"}"
  }

  /** A reader for exactly this one-field shape, `{"id":"<text>"}` with no
      quote or backslash in the text; it is not a JSON parser, and answers
      None for any other body. */
  function ReadIdJson(text: string): Option<string>
  {
    var head := "{\"id\":\"";
    var tail := "\"}";
    if |text| < |head| + |tail| || text[..|head|] != head || text[|text| - |tail|..] != tail then None
    else
      var id := text[|head|..|text| - |tail|];
      if '"' in id || '\\' in id then None else Some(id)
  }

  /** The success body carries the id back to the client. */
  lemma IdJsonRoundTrip(id: string)
    requires IsNanoId(id)
    ensures ReadIdJson(IdJson(id)) == Some(id)
  {
  }

  /** The handler as a function of the request, the minted id, the URL check,
      whether the store write fails, and the store before the call. */
  function Allocate(req: ApiRequest, id: string, isUrl: UrlValidator, writeFault: bool,
                    store: map<string, string>): (o: Outcome)
    ensures o.response.status == 404 <==> req.httpMethod != "POST"
    ensures o.response.status == 200 <==>
              req.httpMethod == "POST" && ValidatedUrl(req.body, isUrl).Some? && !writeFault
    ensures o.response.status == 404 ==> o.response == NotFound
    ensures o.response.status == 200 ==>
              o.response == Response(200, Some("application/json"), IdJson(id))
    ensures o.response.status !in {200, 404} ==> o.response == BadRequest
    ensures o.response.status == 200 ==> o.store == store[id := ValidatedUrl(req.body, isUrl).value]
    ensures o.response.status != 200 ==> o.store == store
  {
    if req.httpMethod != "POST" then Outcome(NotFound, store)
    else
      match ValidatedUrl(req.body, isUrl)
      case None => Outcome(BadRequest, store)
      case Some(url) =>
        if writeFault then Outcome(BadRequest, store)
        else Outcome(Response(200, Some("application/json"), IdJson(id)), store[id := url])
  }

  /** The handler against the shared store. `id` is what `nanoid(5)` returned
      and `writeFault` whether `redis.set` fails. */
  method Handler(redis: Store, req: ApiRequest, id: string, isUrl: UrlValidator, writeFault: bool)
    returns (res: Response)
    requires IsNanoId(id)
    modifies redis
    ensures Outcome(res, redis.entries) == Allocate(req, id, isUrl, writeFault, old(redis.entries))
  {
    if req.httpMethod != "POST" {
      return NotFound;
    }
    var url := ValidatedUrl(req.body, isUrl);
    if url.None? {
      return BadRequest;
    }
    var ok := redis.Set(id, url.value, writeFault);
    if !ok {
      return BadRequest;
    }
    res := Response(200, Some("application/json"), IdJson(id));
  }

  /** A successful allocation changes the store at exactly one key: `id` now
      holds the submitted URL, whatever it held before, and every other key
      keeps its value. */
  lemma AllocationWritesOneKey(req: ApiRequest, id: string, isUrl: UrlValidator,
                               store: map<string, string>, key: string)
    requires Allocate(req, id, isUrl, false, store).response.status == 200
    ensures var after := Allocate(req, id, isUrl, false, store).store;
            && after.Keys == store.Keys + {id}
            && Lookup(after, id) == Some(req.body.url.s)
            && (key != id ==> Lookup(after, key) == Lookup(store, key))
  {
  }

  /** Every failed call leaves the store as it was. */
  lemma FailureWritesNothing(req: ApiRequest, id: string, isUrl: UrlValidator, writeFault: bool,
                             store: map<string, string>)
    requires req.httpMethod != "POST" || ValidatedUrl(req.body, isUrl).None? || writeFault
    ensures Allocate(req, id, isUrl, writeFault, store).store == store
    ensures Allocate(req, id, isUrl, writeFault, store).response in {NotFound, BadRequest}
  {
  }

  /** The codes whose path `"/" + id` the middleware's prefix and equality
      rules swallow. */
  predicate Swallowed(id: string)
  {
    id == "_next" || id == "index" || StartsWith(id, "api")
  }

  /** On a path of six characters, the prefix and equality rules reduce to
      three conditions on the code. */
  lemma NanoIdPathRules(id: string)
    requires |id| == 5
    ensures var p := "/" + id;
            && (StartsWith(p, "/_next") <==> id == "_next")
            && (StartsWith(p, "/api") <==> StartsWith(id, "api"))
            && !StartsWith(p, "/static") && !StartsWith(p, "/favicon.ico")
            && (p == "/index" <==> id == "index")
            && p != "/"
  {
    var p := "/" + id;
    if StartsWith(p, "/_next") { assert p == p[..6]; }
    if StartsWith(id, "api") { assert p[..4] == "/" + id[..3]; }
    if StartsWith(p, "/api") { assert id[..3] == p[..4][1..]; }
    if p == "/index" { assert id == p[1..]; }
  }

  /** A nanoid code's path reaches the middleware, and is excluded from lookup
      exactly when the code is swallowed. */
  lemma NanoIdPathExcluded(id: string)
    requires IsNanoId(id)
    ensures ReachesMiddleware("/" + id)
    ensures IsExcluded("/" + id) <==> Swallowed(id)
  {
    var p := "/" + id;
    PathSafePathShape(id);
    NanoIdPathRules(id);
    assert StartsWith(p, "/_next") ==> StartsWith(p, ExcludedPrefixes[0]);
    assert StartsWith(p, "/api") ==> StartsWith(p, ExcludedPrefixes[1]);
    if exists prefix :: prefix in ExcludedPrefixes && StartsWith(p, prefix) {
      var prefix :| prefix in ExcludedPrefixes && StartsWith(p, prefix);
      assert prefix == "/_next" || prefix == "/api";
    }
  }

  /** The round trip: after a successful allocation of `id` for `u`, visiting
      `/id` redirects to `u`, unless the code is swallowed, in which case the
      visit passes through and the link never resolves. */
  lemma AllocateThenVisit(u: string, id: string, isUrl: UrlValidator, store: map<string, string>,
                          origin: string, search: string)
    requires IsNanoId(id) && isUrl(u)
    ensures var o := Allocate(ApiRequest("POST", Json(Text(u))), id, isUrl, false, store);
            && o.response.status == 200
            && ReachesMiddleware("/" + id)
            && (!Swallowed(id) ==> Resolve(NextUrl(origin, "/" + id, search), o.store) == Redirect(u))
            && (Swallowed(id) ==> Resolve(NextUrl(origin, "/" + id, search), o.store) == Passthrough)
  {
    NanoIdPathExcluded(id);
    assert ("/" + id)[1..] == id;
  }
}
