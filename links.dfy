/** The "previous shortened URLs" list (src/app/links.tsx): read the ids kept in
    the `links` cookie, look each one up in the store, pair ids with their
    values and show the list newest first. */
module Links {
  import opened Redis
  import opened Middleware

  /** One entry of the list: an id and what the store answered for it
      (`null` is kept, not filtered). */
  datatype Entry = Entry(id: string, link: Option<string>)

  /** One rendered card: its React key, the short link shown and copied, and
      the original link. */
  datatype Card = Card(key: string, shortenedLink: string, originalLink: Option<string>, copyText: string)

  const ShortOrigin: string := "https://shorto.ink"

  /** The ids in the cookie; a missing cookie reads as `'[]'`. */
  function CookieIds(cookie: Option<seq<string>>): (ids: seq<string>)
    ensures cookie.None? ==> ids == []
    ensures cookie.Some? ==> ids == cookie.value
  {
    match cookie
    case None => []
    case Some(ids) => ids
  }

  /** `Promise.all(links.map((id) => redis.get(id)))`: one lookup per id, the
      answers kept in id order. */
  function Lookups(ids: seq<string>, store: map<string, string>): (r: seq<Option<string>>)
    ensures |r| == |ids|
    ensures forall i :: 0 <= i < |ids| ==> r[i] == Lookup(store, ids[i])
  {
    if ids == [] then [] else [Lookup(store, ids[0])] + Lookups(ids[1..], store)
  }

  /** `links.map((id, i) => ({ id, link: data[i]! }))`. */
  function Pair(ids: seq<string>, data: seq<Option<string>>): (r: seq<Entry>)
    requires |ids| == |data|
    ensures |r| == |ids|
    ensures forall i :: 0 <= i < |ids| ==> r[i] == Entry(ids[i], data[i])
  {
    if ids == [] then [] else [Entry(ids[0], data[0])] + Pair(ids[1..], data[1..])
  }

  /** `Array.prototype.reverse`, as a value. */
  function Reverse<T>(s: seq<T>): (r: seq<T>)
    ensures |r| == |s|
    ensures forall k :: 0 <= k < |s| ==> r[k] == s[|s| - 1 - k]
  {
    if s == [] then [] else Reverse(s[1..]) + [s[0]]
  }

  /** `getData`: entry k pairs the id at position n-1-k of the cookie list with
      that id's stored value. */
  function GetData(cookie: Option<seq<string>>, store: map<string, string>): (r: seq<Entry>)
    ensures cookie.None? ==> r == []
    ensures |r| == |CookieIds(cookie)|
    ensures forall k :: 0 <= k < |r| ==>
              var id := CookieIds(cookie)[|r| - 1 - k];
              r[k] == Entry(id, Lookup(store, id))
  {
    var ids := CookieIds(cookie);
    Reverse(Pair(ids, Lookups(ids, store)))
  }

  /** The URL of the short link for `id`. */
  function ShortLinkUrl(id: string): NextUrl
  {
    NextUrl(ShortOrigin, "/" + id, "")
  }

  /** `https://shorto.ink/${id}`. */
  function ShortLink(id: string): (link: string)
    ensures link == "https://shorto.ink/" + id
    ensures link == Href(ShortLinkUrl(id))
  {
    Href(ShortLinkUrl(id))
  }

  /** The position of the first character of `s` in `stops`, or `|s|`. */
  function IndexOfAny(s: string, stops: set<char>): (n: nat)
    ensures n <= |s|
    ensures forall j :: 0 <= j < n ==> s[j] !in stops
    ensures n < |s| ==> s[n] in stops
  {
    if s == [] || s[0] in stops then 0 else 1 + IndexOfAny(s[1..], stops)
  }

  /** The characters a link after the origin may hold for `ParseLink` to read it. */
  predicate IsLinkChar(c: char)
  {
    c == '/' || c == '?' || c == '#' || IsPathSafeChar(c)
  }

  /** A link that `ParseLink` reads: on `https://shorto.ink`, with a path
      after the origin and only characters of `IsLinkChar`. */
  predicate IsModelledLink(link: string)
  {
    && StartsWith(link, ShortOrigin)
    && var rest := link[|ShortOrigin|..];
       rest != [] && rest[0] == '/' && forall c | c in rest :: IsLinkChar(c)
  }

  /** Cutting at the first '#' and then at the first '?' cuts at the first of
      either. */
  lemma FirstStop(s: string)
    ensures var h := IndexOfAny(s, {'#'});
            IndexOfAny(s[..h], {'?'}) == IndexOfAny(s, {'?', '#'})
  {
    var h := IndexOfAny(s, {'#'});
    var p := IndexOfAny(s[..h], {'?'});
    forall j | 0 <= j < p ensures s[j] !in {'?', '#'} {
      assert s[..h][j] == s[j];
    }
    if p < h {
      assert s[..h][p] == s[p];
    }
  }

  /** The request URL a browser sends when it follows `link`: the pathname runs
      from the '/' after the origin up to the first '?' or '#', the search
      from that '?' up to the first '#' (empty when it is the bare "?"), and
      the fragment is not sent. None for a link on another origin, or one
      holding any other character, whose parse (percent-encoding, backslashes,
      dot segments) is not modelled. */
  function ParseLink(link: string): (u: Option<NextUrl>)
    ensures u.Some? <==> IsModelledLink(link)
    ensures u.Some? ==> var rest := link[|ShortOrigin|..];
              u.value.pathname == rest[..IndexOfAny(rest, {'?', '#'})]
    ensures u.Some? ==> u.value.origin == ShortOrigin && IsPathname(u.value.pathname)
    ensures u.Some? ==> '?' !in u.value.pathname && '#' !in u.value.pathname
    ensures u.Some? && u.value.search != "" ==> u.value.search[0] == '?' && '#' !in u.value.search
  {
    if !StartsWith(link, ShortOrigin) then None
    else
      var rest := link[|ShortOrigin|..];
      if rest == [] || rest[0] != '/' || !(forall c | c in rest :: IsLinkChar(c)) then None
      else
        assert forall j :: 0 <= j < |rest| ==> IsLinkChar(rest[j]);
        var sent := rest[..IndexOfAny(rest, {'#'})];
        var p := IndexOfAny(sent, {'?'});
        FirstStop(rest);
        assert sent[..p] == rest[..p];
        assert forall j :: 0 <= j < p ==> !IsLineTerminator(rest[..p][j]);
        var query := sent[p..];
        Some(NextUrl(ShortOrigin, sent[..p], if query == "?" then "" else query))
  }

  /** Following the short link of a path-safe id sends the path "/" + id with
      no search. */
  lemma ShortLinkParses(id: string)
    requires IsPathSafe(id)
    ensures ParseLink(ShortLink(id)) == Some(ShortLinkUrl(id))
  {
    var rest := "/" + id;
    assert ShortLink(id) == ShortOrigin + rest;
    assert ShortLink(id)[..|ShortOrigin|] == ShortOrigin;
    assert ShortLink(id)[|ShortOrigin|..] == rest;
    forall c | c in rest ensures IsLinkChar(c) {
      var i :| 0 <= i < |rest| && rest[i] == c;
      if i > 0 { assert rest[i] == id[i - 1]; }
    }
    assert forall i :: 0 < i < |rest| ==> rest[i] == id[i - 1];
    assert IndexOfAny(rest, {'#'}) == |rest|;
    assert rest[..|rest|] == rest;
    assert IndexOfAny(rest, {'?'}) == |rest|;
  }

  /** An id holding '?' is not a path: the link shown for "a?b" sends the path
      "/a" with the search "?b". */
  lemma QueryInIdSplitsPath()
    ensures ParseLink(ShortLink("a?b")) == Some(NextUrl(ShortOrigin, "/a", "?b"))
  {
    var rest := "/a?b";
    assert ShortLink("a?b") == ShortOrigin + rest;
    assert ShortLink("a?b")[|ShortOrigin|..] == rest;
    assert IndexOfAny(rest, {'#'}) == 4;
    assert rest[..4] == rest;
    assert IndexOfAny(rest, {'?'}) == 2;
    assert rest[..2] == "/a" && rest[2..] == "?b";
  }

  function CardOf(e: Entry): Card
  {
    Card(e.id, ShortLink(e.id), e.link, ShortLink(e.id))
  }

  /** The `Links` component: nothing when the list is empty, otherwise one card
      per entry, in list order. */
  function RenderLinks(entries: seq<Entry>): (section: Option<seq<Card>>)
    ensures section.None? <==> entries == []
    ensures section.Some? ==> |section.value| == |entries|
    ensures section.Some? ==> forall k :: 0 <= k < |entries| ==>
              && section.value[k].key == entries[k].id
              && section.value[k].shortenedLink == "https://shorto.ink/" + entries[k].id
              && section.value[k].copyText == section.value[k].shortenedLink
              && section.value[k].originalLink == entries[k].link
  {
    if entries == [] then None
    else Some(seq(|entries|, k requires 0 <= k < |entries| => CardOf(entries[k])))
  }

  /** A card whose original link is a non-empty string shows a short link
      that, followed, the middleware redirects to that string; a card whose
      stored value is null or empty shows a short link that rewrites to the
      not-found page. Both hold for an id of path-safe characters whose path
      escapes the exclusion rules. */
  lemma ShownLinkResolves(cookie: Option<seq<string>>, store: map<string, string>, k: nat)
    requires k < |GetData(cookie, store)|
    requires var id := GetData(cookie, store)[k].id;
             IsPathSafe(id) && !IsExcluded("/" + id)
    ensures var e := GetData(cookie, store)[k];
            && ParseLink(ShortLink(e.id)) == Some(ShortLinkUrl(e.id))
            && ReachesMiddleware(ShortLinkUrl(e.id).pathname)
            && (e.link.Some? && e.link.value != "" ==>
                  Resolve(ShortLinkUrl(e.id), store) == Redirect(e.link.value))
            && (!(e.link.Some? && e.link.value != "") ==>
                  Resolve(ShortLinkUrl(e.id), store) == Rewrite(ShortLinkUrl(e.id).(pathname := NotFoundPath)))
  {
    var e := GetData(cookie, store)[k];
    ShortLinkParses(e.id);
    assert "/" + e.id != "/" && |"/" + e.id| == |e.id| + 1;
    PathSafePathShape(e.id);
    assert ("/" + e.id)[1..] == e.id;
  }
}
