/** The request interceptor (src/middleware.ts): for every path the framework
    routes to it, decide between letting the request through, redirecting to a
    stored long URL, and rewriting to the not-found page. */
module Middleware {
  import opened Redis

  /** The parts of `request.nextUrl` the resolver uses or rewrites. */
  datatype NextUrl = NextUrl(origin: string, pathname: string, search: string)

  /** The three outcomes of the middleware: `return` with no response, a
      redirect to the string passed to `NextResponse.redirect`, and a rewrite to
      the given URL. */
  datatype Decision = Passthrough | Redirect(location: string) | Rewrite(url: NextUrl)

  /** The first stage of the decision: pass the path through, or fetch a key. */
  datatype Route = Pass | Fetch(key: string)

  const NotFoundPath: string := "/not-found"

  /** The path prefixes tested with `startsWith`, in source order. */
  const ExcludedPrefixes: seq<string> := ["/_next", "/api", "/static", "/favicon.ico"]

  /** The paths tested with `===`. */
  const ExcludedPaths: set<string> := {"/index", "/"}

  /** The full URL text of `url`, as `href` gives it. */
  function Href(url: NextUrl): string
  {
    url.origin + url.pathname + url.search
  }

  /** JavaScript's `s.startsWith(prefix)`. */
  predicate StartsWith(s: string, prefix: string)
  {
    |prefix| <= |s| && s[..|prefix|] == prefix
  }

  /** The characters that `.` in a JavaScript regular expression does not match. */
  predicate IsLineTerminator(c: char)
  {
    c == '\n' || c == '\r' || c == '\U{2028}' || c == '\U{2029}'
  }

  predicate NoLineTerminator(s: string)
  {
    forall j :: 0 <= j < |s| ==> !IsLineTerminator(s[j])
  }

  /** What `PUBLIC_FILE = /\.(.*)$/` matches: some '.' followed, up to the end
      of the string, by characters that `.` accepts. */
  ghost predicate PublicFileMatch(s: string)
  {
    exists i :: 0 <= i < |s| && s[i] == '.' && NoLineTerminator(s[i + 1..])
  }

  /** `PUBLIC_FILE.test(s)`, computed by scanning from the end. */
  function PublicFileTest(s: string): bool
  {
    if s == [] then false
    else if s[|s| - 1] == '.' then true
    else if IsLineTerminator(s[|s| - 1]) then false
    else PublicFileTest(s[..|s| - 1])
  }

  lemma {:induction false} PublicFileTestMatches(s: string)
    ensures PublicFileTest(s) <==> PublicFileMatch(s)
  {
    if s != [] {
      var n := |s| - 1;
      if s[n] == '.' {
        assert s[n + 1..] == [];
        assert s[n] == '.' && NoLineTerminator(s[n + 1..]);
      } else if IsLineTerminator(s[n]) {
      } else {
        var init := s[..n];
        PublicFileTestMatches(init);
        if PublicFileMatch(init) {
          var i :| 0 <= i < |init| && init[i] == '.' && NoLineTerminator(init[i + 1..]);
          assert s[i + 1..] == init[i + 1..] + [s[n]];
          assert s[i] == '.' && NoLineTerminator(s[i + 1..]);
        }
        if PublicFileMatch(s) {
          var i :| 0 <= i < |s| && s[i] == '.' && NoLineTerminator(s[i + 1..]);
          assert i < n;
          assert init[i + 1..] == s[i + 1..][..n - i - 1];
          assert init[i] == '.' && NoLineTerminator(init[i + 1..]);
        }
      }
    }
  }

  /** On a string without line terminators the regular expression asks only
      whether the string contains a '.'. */
  lemma DotRuleIsContainsDot(s: string)
    requires NoLineTerminator(s)
    ensures PublicFileTest(s) <==> '.' in s
  {
  }

  /** The paths the middleware lets through without a lookup. */
  ghost predicate IsExcluded(pathname: string)
  {
    || (exists prefix :: prefix in ExcludedPrefixes && StartsWith(pathname, prefix))
    || pathname in ExcludedPaths
    || PublicFileMatch(pathname)
  }

  /** `pathname.slice(1)`: the path without its first character. */
  function KeyOf(pathname: string): string
  {
    if pathname == [] then [] else pathname[1..]
  }

  /** A pathname as the URL parser produces it: it begins with '/' and holds no
      line terminator (the parser strips tab, line feed and carriage return
      from its input and percent-encodes U+2028 and U+2029). */
  predicate IsPathname(p: string)
  {
    |p| >= 1 && p[0] == '/' && NoLineTerminator(p)
  }

  /** `config.matcher = '/:id?'`: the root or a single non-empty segment. */
  predicate ReachesMiddleware(p: string)
  {
    IsPathname(p) && (p == "/" || (|p| >= 2 && '/' !in p[1..]))
  }

  /** A character that stands for itself in a URL path, query and fragment
      alike: the URL-safe alphabet `A-Za-z0-9_-`. */
  predicate IsPathSafeChar(c: char)
  {
    || ('A' <= c <= 'Z') || ('a' <= c <= 'z') || ('0' <= c <= '9')
    || c == '_' || c == '-'
  }

  predicate IsPathSafe(segment: string)
  {
    forall i :: 0 <= i < |segment| ==> IsPathSafeChar(segment[i])
  }

  /** The path of a non-empty path-safe segment is a single segment with no
      '.' in it: it reaches the middleware and escapes `PUBLIC_FILE`. */
  lemma PathSafePathShape(segment: string)
    requires segment != [] && IsPathSafe(segment)
    ensures ReachesMiddleware("/" + segment)
    ensures !PublicFileMatch("/" + segment)
  {
    var p := "/" + segment;
    assert p[1..] == segment;
    forall i | 0 <= i < |p| ensures p[i] == '/' || IsPathSafeChar(p[i]) {
      if i > 0 { assert p[i] == segment[i - 1]; }
    }
    assert '.' !in p;
    DotRuleIsContainsDot(p);
    PublicFileTestMatches(p);
  }

  /** The exclusion chain of the middleware, in source order. */
  function Classify(pathname: string): (r: Route)
    ensures r == Pass <==> IsExcluded(pathname)
    ensures r.Fetch? ==> r.key == KeyOf(pathname)
  {
    PublicFileTestMatches(pathname);
    assert StartsWith(pathname, "/_next") ==> StartsWith(pathname, ExcludedPrefixes[0]);
    assert StartsWith(pathname, "/api") ==> StartsWith(pathname, ExcludedPrefixes[1]);
    assert StartsWith(pathname, "/static") ==> StartsWith(pathname, ExcludedPrefixes[2]);
    assert StartsWith(pathname, "/favicon.ico") ==> StartsWith(pathname, ExcludedPrefixes[3]);
    if || StartsWith(pathname, "/_next")
       || StartsWith(pathname, "/api")
       || StartsWith(pathname, "/static")
       || StartsWith(pathname, "/favicon.ico")
       || pathname == "/index"
       || pathname == "/"
       || PublicFileTest(pathname)
    then Pass
    else Fetch(KeyOf(pathname))
  }

  /** The answer for a fetched value: a redirect when it is a truthy string, the
      same URL with only its pathname set to `/not-found` otherwise. */
  function Decide(value: Option<string>, request: NextUrl): (d: Decision)
    ensures d.Redirect? <==> value.Some? && value.value != ""
    ensures d.Redirect? ==> d.location == value.value
    ensures d.Rewrite? ==> d.url.pathname == NotFoundPath
    ensures d.Rewrite? ==> d.url.origin == request.origin && d.url.search == request.search
    ensures !d.Passthrough?
  {
    if value.Some? && value.value != "" then Redirect(value.value)
    else Rewrite(request.(pathname := NotFoundPath))
  }

  /** The whole decision, as a function of the request URL and the store. */
  function Resolve(request: NextUrl, store: map<string, string>): (d: Decision)
    requires ReachesMiddleware(request.pathname)
    ensures d.Passthrough? <==> IsExcluded(request.pathname)
    ensures d.Redirect? <==> !IsExcluded(request.pathname) && request.pathname[1..] in store
                             && store[request.pathname[1..]] != ""
    ensures d.Redirect? ==> d.location == store[request.pathname[1..]]
    ensures d.Rewrite? ==> d.url == request.(pathname := NotFoundPath)
  {
    match Classify(request.pathname)
    case Pass => Passthrough
    case Fetch(key) => Decide(Lookup(store, key), request)
  }

  /** The middleware against the shared store: at most one GET and no write
      (the method modifies nothing). */
  method Handle(request: NextUrl, redis: Store) returns (d: Decision)
    requires ReachesMiddleware(request.pathname)
    ensures d == Resolve(request, redis.entries)
  {
    var route := Classify(request.pathname);
    if route == Pass {
      return Passthrough;
    }
    var url := redis.Get(KeyOf(request.pathname));
    if url.Some? && url.value != "" {
      return Redirect(url.value);
    }
    d := Rewrite(request.(pathname := NotFoundPath));
  }

  /** A path on one of the exclusion rules passes through, whatever the store
      holds; a path holding a '.' anywhere is one of them. */
  lemma ExcludedPathsPassThrough(request: NextUrl, store: map<string, string>)
    requires ReachesMiddleware(request.pathname)
    requires var p := request.pathname;
             || StartsWith(p, "/_next") || StartsWith(p, "/api")
             || StartsWith(p, "/static") || StartsWith(p, "/favicon.ico")
             || p == "/index" || p == "/" || '.' in p
    ensures Resolve(request, store) == Passthrough
  {
  }

  /** The decision reads the store at one key only: two stores that agree there
      give the same decision, and an excluded path gives the same decision for
      every pair of stores. */
  lemma ResolveReadsOneKey(request: NextUrl, s1: map<string, string>, s2: map<string, string>)
    requires ReachesMiddleware(request.pathname)
    requires IsExcluded(request.pathname)
             || Lookup(s1, KeyOf(request.pathname)) == Lookup(s2, KeyOf(request.pathname))
    ensures Resolve(request, s1) == Resolve(request, s2)
  {
  }

  /** A path that misses the exclusion rules redirects exactly when the key
      after its leading '/' holds a non-empty string. */
  lemma CandidatePathUsesKey(request: NextUrl, store: map<string, string>)
    requires ReachesMiddleware(request.pathname)
    requires var p := request.pathname;
             && !StartsWith(p, "/_next") && !StartsWith(p, "/api")
             && !StartsWith(p, "/static") && !StartsWith(p, "/favicon.ico")
             && p != "/index" && p != "/" && '.' !in p
    ensures var key := request.pathname[1..];
            && (key in store && store[key] != "" ==> Resolve(request, store) == Redirect(store[key]))
            && (key !in store || store[key] == "" ==>
                  Resolve(request, store) == Rewrite(request.(pathname := NotFoundPath)))
  {
  }

  /** A short code that happens to begin with "api" is stored but never
      reachable: its path passes through the prefix rule. */
  lemma ApiCodeIsSwallowed(origin: string)
    ensures var request := NextUrl(origin, "/api12", "");
            && ReachesMiddleware(request.pathname)
            && Resolve(request, map["api12" := "https://example.com/page"]) == Passthrough
  {
  }
}
