# shorto short-link path in Dafny

A model of the short-link path of the shorto URL shortener. It has three parts:

- **Middleware** (`middleware.dfy`) is the request interceptor. It routes a request pathname to one of three outcomes. It passes the request through when an exclusion rule matches: a prefix rule, an equality rule, or the `PUBLIC_FILE` regular expression. It redirects to the stored long URL when the key after the leading `/` holds a non-empty string. Otherwise it rewrites to `/not-found`.
- **ShortenApi** (`shorten.dfy`) is the creation endpoint. It rejects non-POST methods with 404. It validates the submitted `url` and writes `id -> url` unconditionally into the store. It answers `{"id":"<id>"}`, and any failure becomes a 400.
- **Links** (`links.dfy`) is the "previous shortened URLs" list. It reads the ids from the `links` cookie and looks each one up. It pairs each id with its stored value, reverses the list and renders one card per entry, linking to `https://shorto.ink/<id>`.

The Upstash Redis store is the class `Redis.Store`. It holds a `map<string, string>` and offers `Get` (read-only) and `Set` (an in-place update). The middleware decision (`Middleware.Resolve`) and the handler (`ShortenApi.Allocate`) are pure functions of the store contents. The methods `Middleware.Handle` and `ShortenApi.Handler` run against the store object and are proved equal to those functions. `Handle` has no `modifies` clause, so it never writes to the store.

The main cross-component property is `ShortenApi.AllocateThenVisit`. After a successful allocation of `id` for `u`, visiting `/id` redirects to `u`. The exception is an id whose path the middleware's own rules swallow. `ShortenApi.NanoIdPathExcluded` shows these are exactly `_next`, `index` and ids beginning with `api`; for those ids the visit passes through.

Three inputs are parameters of the model:
- the randomness of `nanoid(5)`: an `id` of five URL-safe characters;
- the validation library's URL check: a `UrlValidator`, about which only one thing is assumed, that it rejects `""`;
- the success or failure of the store write: `writeFault`.

Four behaviours of the code that the model keeps as they are:
- a non-POST request gets 404 "Not found";
- the success body is `{"id": id}` and nothing else;
- the store read in the middleware is not wrapped in a `try`, so a failing read is not turned into any outcome;
- `NextResponse.redirect` is called without a status.

## Model

| member | source | states |
|---|---|---|
| `Redis.Store.Get` | src/middleware.ts:28 | GET answers the stored string exactly when the key is present, and null otherwise; it changes nothing |
| `Redis.Store.Set` | src/pages/api/shorten.ts:21 | SET overwrites the key unconditionally and leaves every other key as it was; a failed request writes nothing |
| `Middleware.PublicFileTestMatches` | src/middleware.ts:10 | the end-to-start scan matches `/\.(.*)$/` exactly: some '.' is followed, up to the end, only by characters that `.` accepts (both directions) |
| `Middleware.DotRuleIsContainsDot` | src/middleware.ts:22 | on a pathname without line terminators, the `PUBLIC_FILE` test holds iff the path contains a '.' anywhere |
| `Middleware.Classify` | src/middleware.ts:15-28 | the exclusion chain passes exactly the paths on a prefix rule (`/_next`, `/api`, `/static`, `/favicon.ico`), an equality rule (`/index`, `/`) or the regular expression; every other path fetches `pathname.slice(1)` |
| `Middleware.Decide` | src/middleware.ts:31-35 | a redirect exactly when the fetched value is a non-empty string, targeting that string; otherwise a rewrite that keeps origin and search and sets the pathname to `/not-found`; never a passthrough |
| `Middleware.Resolve` | src/middleware.ts:12-40 | for a path the `/:id?` matcher admits: passthrough iff excluded; redirect iff not excluded and the key after '/' holds a non-empty string, with that string as target; otherwise the same URL rewritten to `/not-found` |
| `Middleware.Handle` | src/middleware.ts:12-36 | the middleware run against the store object gives `Resolve` of the current store contents and modifies nothing |
| `Middleware.ExcludedPathsPassThrough` | src/middleware.ts:15-25 | a path starting with one of the four prefixes, equal to `/index` or `/`, or containing a '.' passes through, whatever the store holds |
| `Middleware.ResolveReadsOneKey` | src/middleware.ts:15-28 | two stores that agree at the path's key give the same decision, and an excluded path gives the same decision for every store: the outcome depends on at most one lookup |
| `Middleware.CandidatePathUsesKey` | src/middleware.ts:28-35 | a path that escapes every rule redirects to `store[path[1..]]` when that is non-empty, and rewrites to `/not-found` when it is absent or empty |
| `Middleware.ApiCodeIsSwallowed` | src/middleware.ts:17 | `/api12` reaches the middleware and passes through even when `api12` is stored |
| `ShortenApi.ValidatedUrl` | src/pages/api/shorten.ts:17-18 | the body yields a URL exactly when it is JSON with a string `url` the check accepts; that URL is the field itself and is never empty |
| `ShortenApi.IdJsonRoundTrip` | src/pages/api/shorten.ts:24-26 | reading the success body `JSON.stringify({ id })` gives back the nanoid id |
| `ShortenApi.Allocate` | src/pages/api/shorten.ts:11-38 | 404 "Not found" iff the method is not POST; 200 `application/json` `{"id":id}` iff POST, a valid URL and a successful write; 400 "Bad request" otherwise; the store changes at `id` only on 200, and not at all otherwise |
| `ShortenApi.Handler` | src/pages/api/shorten.ts:11-38 | the handler run against the store object answers and updates the store as `Allocate` says |
| `ShortenApi.AllocationWritesOneKey` | src/pages/api/shorten.ts:21 | after a successful allocation, the keys are the old keys plus `id`, `id` holds the submitted URL even if it held something before, and every other key is unchanged |
| `ShortenApi.FailureWritesNothing` | src/pages/api/shorten.ts:12-37 | a wrong method, a failed validation or a failed write answers 404 or 400 and leaves the store as it was |
| `Middleware.PathSafePathShape` | src/middleware.ts:15-40 | the path `/segment` of a non-empty segment of `A-Za-z0-9_-` passes the `/:id?` matcher and never matches `PUBLIC_FILE` |
| `ShortenApi.NanoIdPathRules` | src/middleware.ts:16-21 | on `/id` with a five-character code, `/_next` matches iff the code is `_next`, `/api` iff it begins with `api`, `/index` iff it is `index`, and `/static`, `/favicon.ico` and `/` never match |
| `ShortenApi.NanoIdPathExcluded` | src/middleware.ts:16-21 | `/id` for a nanoid id always reaches the middleware, and is excluded exactly when the id is `_next`, `index` or begins with `api` |
| `ShortenApi.AllocateThenVisit` | src/pages/api/shorten.ts:19-21 | a POST with a valid URL `u` and a working store succeeds; afterwards `/id` redirects to `u` unless the id is swallowed, in which case it passes through |
| `Links.CookieIds` | src/app/links.tsx:12 | a missing `links` cookie reads as the empty list |
| `Links.Lookups` | src/app/links.tsx:14 | one lookup per id, the answers in id order |
| `Links.Pair` | src/app/links.tsx:17 | entry i pairs id i with answer i, and null answers are kept |
| `Links.Reverse` | src/app/links.tsx:17 | element k of the result is element n-1-k of the input |
| `Links.GetData` | src/app/links.tsx:11-18 | as many entries as ids, with entry k pairing the id at position n-1-k with that id's lookup; empty without a cookie |
| `Links.ShortLink` | src/app/links.tsx:33 | the shown link is `https://shorto.ink/` followed by the id |
| `Links.ParseLink` | src/app/links.tsx:33 | a link is read exactly when it is on `https://shorto.ink`, continues with `/` and holds only `/`, `?`, `#` and `A-Za-z0-9_-`; following it then sends as pathname exactly the part after the origin up to the first `?` or `#`, which starts with `/`, and a non-empty search that starts with `?` and holds no `#` |
| `Links.ShortLinkParses` | src/app/links.tsx:33 | following the short link of an id of `A-Za-z0-9_-` sends exactly the pathname `/id` with no search |
| `Links.QueryInIdSplitsPath` | src/app/links.tsx:33 | the short link of the unchecked cookie id `a?b` sends pathname `/a` and search `?b`, so it does not name the id |
| `Links.RenderLinks` | src/app/links.tsx:25-38 | nothing is rendered for an empty list; otherwise one card per entry, in order, keyed by the id and showing and copying the short link beside the stored link |
| `Links.ShownLinkResolves` | src/app/links.tsx:33-34 | for a listed id of `A-Za-z0-9_-` whose path escapes the exclusion rules, following its short link sends `/id`, which reaches the middleware; the middleware redirects to the stored link when it is a non-empty string, and rewrites to `/not-found` when it is null or empty |

## Left out

- The redirect status code: `NextResponse.redirect` is called without one, so the framework's default applies. That code is not part of this model.
- `NextResponse.redirect` validates and re-serialises its argument as a URL, which the framework does. `Redirect` carries the string that is passed to it.
- Errors from the store read in the middleware are not caught in the code and propagate to the framework. No outcome is modelled for them.
- The Upstash client's automatic JSON encoding and decoding of values is not modelled. Values are plain strings, which is what a URL that passed validation round-trips to.
- The Redis client construction from environment variables, the HTTP transport, and `console.log`/`console.time` are not modelled.
- `nanoid`'s random generation and the validation library's URL parser are foreign code. They appear as an id parameter and a validator parameter.
- `await req.json()` and the cookie's `JSON.parse` are foreign code. The model starts from their results (`Body`, and a decoded id list). A malformed cookie or one that is not an array throws in the code and is not modelled.
- `Redis.Store.Set`: a failed request writes nothing. A request that times out after the store applied it is not modelled.
- `ShortenApi.IdJson`: it writes `JSON.stringify({ id })` only for ids that need no escaping, which every nanoid id is.
- The content type the runtime gives plain-text responses is a framework default. Error responses carry `None`.
- Next.js's own handling around the matcher is not modelled: `_next/data` routes, trailing-slash redirects and percent-decoding. `ReachesMiddleware` admits `/` and single-segment pathnames.
- `Links.ParseLink`: it reads only links on `https://shorto.ink` made of `/`, `?`, `#` and `A-Za-z0-9_-`. Percent-encoding, backslashes, spaces and dot segments in the browser's URL parser are not modelled. So `Links.ShownLinkResolves` speaks only of ids of that alphabet, which is every id the creation endpoint mints. The cookie's ids are not checked by the code.
- `Promise.all` runs the lookups concurrently. The model answers all of them from one snapshot of the store.
- `src/app/link.tsx`, the form and its local-storage list, the share and copy components, the pages and the layout are presentation and client state, and are not modelled.
