/** The browser's Cache Storage as both offline-cache workers use it, with the
    semantics of the Cache and CacheStorage interfaces of the W3C Service
    Workers specification: an ordered list of named caches ("generations"),
    each mapping a request URL to a stored response. Only the behaviour the
    two workers rely on is modelled: `caches.match`, `caches.open`,
    `caches.keys`, `caches.delete`, `cache.put` and `cache.addAll`. */
module CacheApi {
  import opened Common

  /** `response.type`; an "error" response never reaches the workers,
      because `fetch` rejects instead (see `FetchOutcome`). */
  datatype ResponseType = Basic | Cors | Opaque | OpaqueRedirect

  datatype Response = Response(status: int, kind: ResponseType, body: string)

  /** A request as the Cache API sees it: its URL and its method. */
  datatype Request = Request(url: string, httpMethod: string)

  /** What `fetch(request)` settles to: a response (of any status), or a
      rejection for a transport failure. */
  datatype FetchOutcome = Delivered(response: Response) | NetworkFailure

  /** What the page receives from `event.respondWith`: a response, or a
      network error when the handler's promise rejects. */
  datatype Reply = Respond(response: Response) | NetworkError

  /** One generation: a cache name and its entries keyed by request URL. */
  datatype NamedCache = NamedCache(name: string, entries: map<string, Response>)

  // ---------------------------------------------------------------------
  // URLs and the requests the Cache API accepts

  predicate IsAsciiAlpha(c: char) {
    ('a' <= c <= 'z') || ('A' <= c <= 'Z')
  }

  predicate IsSchemeChar(c: char) {
    IsAsciiAlpha(c) || ('0' <= c <= '9') || c == '+' || c == '-' || c == '.'
  }

  function LowerAscii(s: string): (r: string)
    ensures |r| == |s|
  {
    if s == [] then []
    else [if 'A' <= s[0] <= 'Z' then (s[0] as int + 32) as char else s[0]] + LowerAscii(s[1..])
  }

  /** The scheme of an absolute URL (lower-cased), or None for a relative
      URL such as `index.html` or `/`. */
  function SchemeOf(url: string): Option<string> {
    if |url| > 0 && IsAsciiAlpha(url[0]) then SchemeFrom(url, 1) else None
  }

  function SchemeFrom(url: string, i: nat): Option<string>
    requires 1 <= i <= |url|
    decreases |url| - i
  {
    if i == |url| then None
    else if url[i] == ':' then Some(LowerAscii(url[..i]))
    else if IsSchemeChar(url[i]) then SchemeFrom(url, i + 1)
    else None
  }

  /** The URL's scheme is http or https. A relative URL is resolved against
      the worker's own location, which is served over http(s). */
  predicate IsHttpUrl(url: string) {
    match SchemeOf(url)
    case None => true
    case Some(scheme) => scheme == "http" || scheme == "https"
  }

  /** A URL without a colon is relative. */
  lemma RelativeHasNoScheme(url: string)
    requires ':' !in url
    ensures SchemeOf(url) == None
  {
    if |url| > 0 && IsAsciiAlpha(url[0]) {
      NoSchemeFrom(url, 1);
    }
  }

  lemma {:induction false} NoSchemeFrom(url: string, i: nat)
    requires 1 <= i <= |url| && ':' !in url
    ensures SchemeFrom(url, i) == None
    decreases |url| - i
  {
    if i < |url| && IsSchemeChar(url[i]) {
      NoSchemeFrom(url, i + 1);
    }
  }

  /** An `https:` URL has the https scheme. */
  lemma HttpsScheme(url: string)
    requires StartsWith(url, "https:")
    ensures SchemeOf(url) == Some("https")
  {
    assert url[..6] == "https:";
    assert url[0] == 'h' && url[1] == 't' && url[2] == 't' && url[3] == 'p' && url[4] == 's' && url[5] == ':';
    assert SchemeFrom(url, 3) == SchemeFrom(url, 4) == SchemeFrom(url, 5);
    assert SchemeFrom(url, 1) == SchemeFrom(url, 2) == SchemeFrom(url, 3);
    assert url[..5] == "https";
    assert LowerAscii(url[..5]) == "https" by {
      var h := url[..5];
      assert h[1..] == "ttps" && h[1..][1..] == "tps" && h[1..][1..][1..] == "ps";
      assert h[1..][1..][1..][1..] == "s";
    }
  }

  /** `cache.put` and `cache.addAll` reject (TypeError) a request whose
      method is not GET or whose scheme is not http(s). */
  predicate Cacheable(req: Request) {
    req.httpMethod == "GET" && IsHttpUrl(req.url)
  }

  /** `cache.put(request, response)` stores the pair unless it rejects:
      request not cacheable, or a partial (206) response. */
  predicate PutAccepts(req: Request, resp: Response) {
    Cacheable(req) && resp.status != 206
  }

  /** `cache.addAll` accepts a fetched response only with an ok status
      (200-299) other than 206. */
  predicate AddAllResponseOk(resp: Response) {
    200 <= resp.status <= 299 && resp.status != 206
  }

  /** `urls.map(url => new Request(url, { cache: 'reload' }))`: one GET
      request per URL, in the given order. */
  function ReloadRequests(urls: seq<string>): (r: seq<Request>)
    ensures |r| == |urls|
    ensures forall i :: 0 <= i < |r| ==> r[i].url == urls[i] && r[i].httpMethod == "GET"
  {
    seq(|urls|, i requires 0 <= i < |urls| => Request(urls[i], "GET"))
  }

  predicate DistinctUrls(requests: seq<Request>) {
    forall i, j :: 0 <= i < j < |requests| ==> requests[i].url != requests[j].url
  }

  /** Whether `cache.addAll(requests)` resolves, given what the network
      answers to each request. */
  predicate AddAllSucceeds(requests: seq<Request>, respond: Request -> FetchOutcome) {
    && (forall r :: r in requests ==> Cacheable(r))
    && (forall r :: r in requests ==> respond(r).Delivered? && AddAllResponseOk(respond(r).response))
    && DistinctUrls(requests)
  }

  // ---------------------------------------------------------------------
  // The state of Cache Storage as a value

  predicate DistinctNames(cs: seq<NamedCache>) {
    forall i, j :: 0 <= i < j < |cs| ==> cs[i].name != cs[j].name
  }

  function Names(cs: seq<NamedCache>): set<string> {
    set c | c in cs :: c.name
  }

  /** `caches.keys()`: the cache names in creation order. */
  function NameList(cs: seq<NamedCache>): (r: seq<string>)
    ensures |r| == |cs| && forall i :: 0 <= i < |cs| ==> r[i] == cs[i].name
  {
    if cs == [] then [] else [cs[0].name] + NameList(cs[1..])
  }

  /** The entries of the generation called `name`, if there is one. */
  function Find(cs: seq<NamedCache>, name: string): (r: Option<map<string, Response>>)
    ensures r.None? <==> name !in Names(cs)
  {
    if cs == [] then None
    else if cs[0].name == name then Some(cs[0].entries)
    else Find(cs[1..], name)
  }

  function EntriesOf(cs: seq<NamedCache>, name: string): map<string, Response> {
    match Find(cs, name)
    case Some(e) => e
    case None => map[]
  }

  /** `cache.match(request)` on one generation: a GET request whose URL is
      stored. */
  function CacheMatch(c: NamedCache, req: Request): Option<Response> {
    if req.httpMethod == "GET" && req.url in c.entries then Some(c.entries[req.url]) else None
  }

  /** `caches.match(request)`: the first generation, in creation order,
      holding an entry for the request. */
  function MatchIn(cs: seq<NamedCache>, req: Request): Option<Response> {
    if cs == [] then None
    else if CacheMatch(cs[0], req).Some? then CacheMatch(cs[0], req)
    else MatchIn(cs[1..], req)
  }

  /** `caches.open(name)` creates an empty generation when none has that name. */
  function Opened(cs: seq<NamedCache>, name: string): (r: seq<NamedCache>)
    ensures Names(r) == Names(cs) + {name}
  {
    if name in Names(cs) then cs
    else
      var r := cs + [NamedCache(name, map[])];
      assert forall c :: c in r <==> c in cs || c == NamedCache(name, map[]);
      r
  }

  /** The generation called `name` gets the entries `e`; the others stay. */
  function SetEntries(cs: seq<NamedCache>, name: string, e: map<string, Response>): (r: seq<NamedCache>)
    ensures |r| == |cs|
    ensures forall i :: 0 <= i < |cs| ==> r[i] == if cs[i].name == name then NamedCache(name, e) else cs[i]
  {
    if cs == [] then []
    else [if cs[0].name == name then NamedCache(name, e) else cs[0]] + SetEntries(cs[1..], name, e)
  }

  /** The generations whose names are not in `doomed`, in their order. */
  function Purge(cs: seq<NamedCache>, doomed: set<string>): (r: seq<NamedCache>)
    ensures |r| <= |cs|
    ensures forall c :: c in r <==> c in cs && c.name !in doomed
  {
    if cs == [] then []
    else if cs[0].name in doomed then Purge(cs[1..], doomed)
    else [cs[0]] + Purge(cs[1..], doomed)
  }

  /** The state after the activate handler: every generation whose name is
      not `current` is deleted. */
  function Activated(cs: seq<NamedCache>, current: string): seq<NamedCache> {
    Purge(cs, Names(cs) - {current})
  }

  /** The state after `cache.put(req, resp)` on the generation `name`. */
  function Stored(cs: seq<NamedCache>, name: string, req: Request, resp: Response): seq<NamedCache> {
    if PutAccepts(req, resp) then SetEntries(cs, name, EntriesOf(cs, name)[req.url := resp]) else cs
  }

  /** The state after `caches.open(name).then(cache => cache.put(req, resp))`. */
  function AfterPut(cs: seq<NamedCache>, name: string, req: Request, resp: Response): seq<NamedCache> {
    Stored(Opened(cs, name), name, req, resp)
  }

  /** The entries after `addAll` commits its batch: each request's URL maps
      to the response delivered for it, later requests last. */
  function PutAll(e: map<string, Response>, requests: seq<Request>, respond: Request -> FetchOutcome): map<string, Response> {
    if requests == [] then e
    else
      var last := requests[|requests| - 1];
      var m := PutAll(e, requests[..|requests| - 1], respond);
      if respond(last).Delivered? then m[last.url := respond(last).response] else m
  }

  // ---------------------------------------------------------------------
  // Properties of the state functions

  lemma {:induction false} NamesOfSetEntries(cs: seq<NamedCache>, name: string, e: map<string, Response>)
    ensures Names(SetEntries(cs, name, e)) == Names(cs)
    ensures DistinctNames(cs) ==> DistinctNames(SetEntries(cs, name, e))
  {
    var r := SetEntries(cs, name, e);
    assert forall i :: 0 <= i < |r| ==> r[i].name == cs[i].name;
    forall n | n in Names(cs) ensures n in Names(r) {
      var i :| 0 <= i < |cs| && cs[i].name == n;
      assert r[i] in r;
    }
    forall n | n in Names(r) ensures n in Names(cs) {
      var i :| 0 <= i < |r| && r[i].name == n;
      assert cs[i] in cs;
    }
  }

  /** After a put into generation `name`, that generation holds exactly the
      old entries updated at `url`; every other generation is unchanged. */
  lemma {:induction false} FindSetEntries(cs: seq<NamedCache>, name: string, e: map<string, Response>, other: string)
    ensures Find(SetEntries(cs, name, e), other) ==
      if other == name && name in Names(cs) then Some(e) else Find(cs, other)
  {
    if cs != [] {
      var r := SetEntries(cs, name, e);
      assert r[1..] == SetEntries(cs[1..], name, e);
      assert Names(cs) == {cs[0].name} + Names(cs[1..]) by {
        assert forall c :: c in cs <==> c == cs[0] || c in cs[1..];
      }
      if cs[0].name != other {
        FindSetEntries(cs[1..], name, e, other);
      }
    }
  }

  lemma {:induction false} DistinctOpened(cs: seq<NamedCache>, name: string)
    requires DistinctNames(cs)
    ensures DistinctNames(Opened(cs, name))
    ensures Find(Opened(cs, name), name) == if name in Names(cs) then Find(cs, name) else Some(map[])
    ensures forall other :: other != name ==> Find(Opened(cs, name), other) == Find(cs, other)
  {
    if name !in Names(cs) {
      var r := cs + [NamedCache(name, map[])];
      forall i | 0 <= i < |cs| ensures cs[i].name != name {
        assert cs[i] in cs;
      }
      FindAppend(cs, NamedCache(name, map[]));
    }
  }

  lemma {:induction false} FindAppend(cs: seq<NamedCache>, c: NamedCache)
    ensures forall n :: Find(cs + [c], n) == if n in Names(cs) then Find(cs, n) else if n == c.name then Some(c.entries) else None
  {
    if cs != [] {
      FindAppend(cs[1..], c);
      assert (cs + [c])[1..] == cs[1..] + [c];
      assert Names(cs) == {cs[0].name} + Names(cs[1..]) by {
        assert forall x :: x in cs <==> x == cs[0] || x in cs[1..];
      }
    }
  }

  /** Appending an empty generation does not change what `MatchIn` finds. */
  lemma {:induction false} MatchInAppendEmpty(cs: seq<NamedCache>, name: string, req: Request)
    ensures MatchIn(cs + [NamedCache(name, map[])], req) == MatchIn(cs, req)
  {
    if cs != [] {
      assert (cs + [NamedCache(name, map[])])[1..] == cs[1..] + [NamedCache(name, map[])];
      MatchInAppendEmpty(cs[1..], name, req);
    }
  }

  /** When no generation holds the request and one generation gets an entry
      for its URL, `caches.match` finds exactly that entry. */
  lemma {:induction false} MatchAfterSetEntries(cs: seq<NamedCache>, name: string, e: map<string, Response>, req: Request)
    requires MatchIn(cs, req) == None
    requires name in Names(cs)
    requires req.httpMethod == "GET" && req.url in e
    ensures MatchIn(SetEntries(cs, name, e), req) == Some(e[req.url])
  {
    assert cs != [];
    var r := SetEntries(cs, name, e);
    assert r[1..] == SetEntries(cs[1..], name, e);
    if cs[0].name != name {
      assert Names(cs) == {cs[0].name} + Names(cs[1..]) by {
        assert forall x :: x in cs <==> x == cs[0] || x in cs[1..];
      }
      MatchAfterSetEntries(cs[1..], name, e, req);
    }
  }

  /** The fetch handlers' store-then-hit guarantee: after a miss, a response
      stored under the current generation is what the next `caches.match`
      for the same request returns. */
  lemma MatchAfterPut(cs: seq<NamedCache>, name: string, req: Request, resp: Response)
    requires DistinctNames(cs)
    requires MatchIn(cs, req) == None
    requires PutAccepts(req, resp)
    ensures MatchIn(AfterPut(cs, name, req, resp), req) == Some(resp)
  {
    var o := Opened(cs, name);
    if name !in Names(cs) {
      MatchInAppendEmpty(cs, name, req);
    }
    assert MatchIn(o, req) == None;
    MatchAfterSetEntries(o, name, EntriesOf(o, name)[req.url := resp], req);
  }

  /** Purging removes the doomed names and nothing else. */
  lemma {:induction false} NamesOfPurge(cs: seq<NamedCache>, doomed: set<string>)
    ensures Names(Purge(cs, doomed)) == Names(cs) - doomed
  {
    var r := Purge(cs, doomed);
    forall n | n in Names(cs) - doomed ensures n in Names(r) {
      var c :| c in cs && c.name == n;
      assert c in r;
    }
  }

  lemma {:induction false} DistinctPurge(cs: seq<NamedCache>, doomed: set<string>)
    requires DistinctNames(cs)
    ensures DistinctNames(Purge(cs, doomed))
    ensures forall n :: n !in doomed ==> Find(Purge(cs, doomed), n) == Find(cs, n)
  {
    if cs != [] {
      assert DistinctNames(cs[1..]) by {
        forall i, j | 0 <= i < j < |cs| - 1 ensures cs[1..][i].name != cs[1..][j].name {
          assert cs[i + 1].name != cs[j + 1].name;
        }
      }
      DistinctPurge(cs[1..], doomed);
      var rest := Purge(cs[1..], doomed);
      if cs[0].name !in doomed {
        forall c | c in rest ensures c.name != cs[0].name {
          var k :| 0 <= k < |cs[1..]| && cs[1..][k] == c;
          assert cs[k + 1] == c;
        }
        var r := [cs[0]] + rest;
        assert r[1..] == rest;
        forall i, j | 0 <= i < j < |r| ensures r[i].name != r[j].name {
          if i == 0 {
            assert r[j] in rest;
          }
        }
      }
      forall n | n !in doomed ensures Find(Purge(cs, doomed), n) == Find(cs, n) {
        if cs[0].name == n {
          assert ([cs[0]] + rest)[0] == cs[0];
        }
      }
    }
  }

  /** Purging twice is purging the union once. */
  lemma {:induction false} PurgePurge(cs: seq<NamedCache>, a: set<string>, b: set<string>)
    ensures Purge(Purge(cs, a), b) == Purge(cs, a + b)
  {
    if cs != [] {
      PurgePurge(cs[1..], a, b);
      if cs[0].name !in a {
        assert ([cs[0]] + Purge(cs[1..], a))[1..] == Purge(cs[1..], a);
      }
    }
  }

  /** Purging names that are not there changes nothing. */
  lemma {:induction false} PurgeAbsent(cs: seq<NamedCache>, doomed: set<string>)
    requires Names(cs) !! doomed
    ensures Purge(cs, doomed) == cs
  {
    if cs != [] {
      assert cs[0] in cs;
      assert Names(cs[1..]) <= Names(cs) by {
        assert forall x :: x in cs[1..] ==> x in cs;
      }
      PurgeAbsent(cs[1..], doomed);
      assert cs == [cs[0]] + cs[1..];
    }
  }

  /** After activation exactly the current generation can remain, with its
      entries untouched, and the order-preserving filter keeps names distinct. */
  lemma ActivatedKeepsCurrent(cs: seq<NamedCache>, current: string)
    requires DistinctNames(cs)
    ensures DistinctNames(Activated(cs, current))
    ensures Names(Activated(cs, current)) == Names(cs) * {current}
    ensures Find(Activated(cs, current), current) == Find(cs, current)
  {
    NamesOfPurge(cs, Names(cs) - {current});
    DistinctPurge(cs, Names(cs) - {current});
  }

  /** The names the activate handler has deleted after visiting `names`. */
  ghost function Doomed(names: seq<string>, whitelist: seq<string>): set<string> {
    set n | n in names && n !in whitelist
  }

  /** One step of the activate loop: visiting `names[i]` deletes it when it
      is not whitelisted and leaves the state alone otherwise. */
  lemma DoomedStep(cs: seq<NamedCache>, names: seq<string>, i: nat, whitelist: seq<string>)
    requires i < |names|
    ensures names[i] !in whitelist ==>
      Purge(Purge(cs, Doomed(names[..i], whitelist)), {names[i]}) == Purge(cs, Doomed(names[..i + 1], whitelist))
    ensures names[i] in whitelist ==>
      Purge(cs, Doomed(names[..i], whitelist)) == Purge(cs, Doomed(names[..i + 1], whitelist))
  {
    assert names[..i + 1] == names[..i] + [names[i]];
    if names[i] !in whitelist {
      assert Doomed(names[..i + 1], whitelist) == Doomed(names[..i], whitelist) + {names[i]};
      PurgePurge(cs, Doomed(names[..i], whitelist), {names[i]});
    } else {
      assert Doomed(names[..i + 1], whitelist) == Doomed(names[..i], whitelist);
    }
  }

  lemma DoomedAll(cs: seq<NamedCache>, whitelist: seq<string>, current: string)
    requires whitelist == [current]
    ensures Doomed(NameList(cs), whitelist) == Names(cs) - {current}
  {
    var ns := NameList(cs);
    forall n | n in Names(cs) ensures n in ns {
      var c :| c in cs && c.name == n;
      var i :| 0 <= i < |cs| && cs[i] == c;
      assert ns[i] == n;
    }
    forall n | n in ns ensures n in Names(cs) {
      var i :| 0 <= i < |ns| && ns[i] == n;
      assert cs[i] in cs;
    }
  }

  /** Activating twice leaves the state of activating once. */
  lemma ActivatedIdempotent(cs: seq<NamedCache>, current: string)
    ensures Activated(Activated(cs, current), current) == Activated(cs, current)
  {
    var r := Activated(cs, current);
    NamesOfPurge(cs, Names(cs) - {current});
    assert Names(r) - {current} == {};
    PurgeAbsent(r, {});
  }

  /** Once activated, `caches.match` answers from the current generation alone. */
  lemma {:induction false} MatchAfterActivate(cs: seq<NamedCache>, current: string, req: Request)
    requires DistinctNames(cs)
    ensures MatchIn(Activated(cs, current), req) ==
      if req.httpMethod == "GET" && req.url in EntriesOf(cs, current) then Some(EntriesOf(cs, current)[req.url]) else None
  {
    var r := Activated(cs, current);
    ActivatedKeepsCurrent(cs, current);
    forall c | c in r ensures c.name == current {
      assert c.name in Names(r);
    }
    MatchOnly(r, current, req);
  }

  /** When every generation other than `n` misses, matching is a lookup in `n`. */
  lemma {:induction false} MatchOnly(cs: seq<NamedCache>, n: string, req: Request)
    requires DistinctNames(cs)
    requires forall c :: c in cs && c.name != n ==> CacheMatch(c, req).None?
    ensures MatchIn(cs, req) ==
      if req.httpMethod == "GET" && req.url in EntriesOf(cs, n) then Some(EntriesOf(cs, n)[req.url]) else None
  {
    if cs != [] {
      var tail := cs[1..];
      assert DistinctNames(tail) by {
        forall i, j | 0 <= i < j < |tail| ensures tail[i].name != tail[j].name {
          assert cs[i + 1].name != cs[j + 1].name;
        }
      }
      MatchOnly(tail, n, req);
      if cs[0].name == n {
        forall c | c in tail ensures c.name != n {
          var k :| 0 <= k < |tail| && tail[k] == c;
          assert cs[k + 1] == c;
        }
        assert n !in Names(tail);
      }
    }
  }

  /** What `addAll` commits: every request's URL maps to its delivered
      response, and every other key keeps its old entry. */
  lemma PutAllContents(e: map<string, Response>, requests: seq<Request>, respond: Request -> FetchOutcome)
    requires DistinctUrls(requests)
    requires forall r :: r in requests ==> respond(r).Delivered?
    ensures forall r :: r in requests ==> r.url in PutAll(e, requests, respond) && PutAll(e, requests, respond)[r.url] == respond(r).response
    ensures forall k :: (forall r :: r in requests ==> r.url != k) ==>
      (k in PutAll(e, requests, respond) <==> k in e) && (k in e ==> PutAll(e, requests, respond)[k] == e[k])
  {
    forall r | r in requests
      ensures r.url in PutAll(e, requests, respond) && PutAll(e, requests, respond)[r.url] == respond(r).response
    {
      PutAllStores(e, requests, respond, r);
    }
    forall k | forall r :: r in requests ==> r.url != k
      ensures (k in PutAll(e, requests, respond) <==> k in e) && (k in e ==> PutAll(e, requests, respond)[k] == e[k])
    {
      PutAllKeeps(e, requests, respond, k);
    }
  }

  lemma {:induction false} PutAllStores(e: map<string, Response>, requests: seq<Request>, respond: Request -> FetchOutcome, r: Request)
    requires DistinctUrls(requests)
    requires r in requests && respond(r).Delivered?
    ensures r.url in PutAll(e, requests, respond) && PutAll(e, requests, respond)[r.url] == respond(r).response
  {
    var init := requests[..|requests| - 1];
    var last := requests[|requests| - 1];
    if r != last {
      var k :| 0 <= k < |requests| && requests[k] == r;
      assert k < |requests| - 1 && init[k] == r;
      assert r.url != last.url;
      assert DistinctUrls(init);
      PutAllStores(e, init, respond, r);
    }
  }

  lemma {:induction false} PutAllKeeps(e: map<string, Response>, requests: seq<Request>, respond: Request -> FetchOutcome, key: string)
    requires forall r :: r in requests ==> r.url != key
    ensures key in PutAll(e, requests, respond) <==> key in e
    ensures key in e ==> PutAll(e, requests, respond)[key] == e[key]
  {
    if requests != [] {
      var init := requests[..|requests| - 1];
      assert forall r :: r in init ==> r in requests;
      assert requests[|requests| - 1] in requests;
      PutAllKeeps(e, init, respond, key);
    }
  }

  // ---------------------------------------------------------------------
  // The mutable objects: Cache Storage itself and the network

  /** The network as the worker sees it: every request is answered by
      `respond`, and `log` records the requests issued, in order. */
  class Network {
    const respond: Request -> FetchOutcome
    var log: seq<Request>

    constructor (respond: Request -> FetchOutcome)
      ensures this.respond == respond && log == []
    {
      this.respond := respond;
      log := [];
    }

    /** One `fetch` per request, issued in the order given. */
    method FetchAll(requests: seq<Request>) returns (outcomes: seq<FetchOutcome>)
      modifies this
      ensures |outcomes| == |requests|
      ensures forall k :: 0 <= k < |requests| ==> outcomes[k] == respond(requests[k])
      ensures log == old(log) + requests
    {
      outcomes := [];
      for i := 0 to |requests|
        invariant |outcomes| == i
        invariant forall k :: 0 <= k < i ==> outcomes[k] == respond(requests[k])
        invariant log == old(log) + requests[..i]
      {
        var outcome := Fetch(requests[i]);
        outcomes := outcomes + [outcome];
        assert requests[..i + 1] == requests[..i] + [requests[i]];
      }
      assert requests[..|requests|] == requests;
    }

    /** `fetch(request)` */
    method Fetch(req: Request) returns (outcome: FetchOutcome)
      modifies this
      ensures outcome == respond(req)
      ensures log == old(log) + [req]
    {
      outcome := respond(req);
      log := log + [req];
    }
  }

  /** The origin's `caches` object. */
  class CacheStorage {
    var caches: seq<NamedCache>

    ghost predicate Valid()
      reads this
    {
      DistinctNames(caches)
    }

    constructor ()
      ensures Valid() && caches == []
    {
      caches := [];
    }

    /** `caches.match(request)` */
    function Match(req: Request): Option<Response>
      reads this
    {
      MatchIn(caches, req)
    }

    /** `caches.keys()` */
    method Keys() returns (names: seq<string>)
      ensures names == NameList(caches)
    {
      names := NameList(caches);
    }

    /** `caches.open(name)` */
    method Open(name: string)
      requires Valid()
      modifies this
      ensures Valid()
      ensures caches == Opened(old(caches), name)
    {
      DistinctOpened(caches, name);
      caches := Opened(caches, name);
    }

    /** `cache.put(request, response)` on the generation `name`, which the
        caller has opened. */
    method Put(name: string, req: Request, resp: Response) returns (ok: bool)
      requires Valid() && name in Names(caches)
      modifies this
      ensures Valid()
      ensures ok == PutAccepts(req, resp)
      ensures caches == Stored(old(caches), name, req, resp)
    {
      ok := PutAccepts(req, resp);
      if ok {
        NamesOfSetEntries(caches, name, EntriesOf(caches, name)[req.url := resp]);
        caches := SetEntries(caches, name, EntriesOf(caches, name)[req.url := resp]);
      }
    }

    /** `caches.delete(name)` */
    method Delete(name: string) returns (deleted: bool)
      requires Valid()
      modifies this
      ensures Valid()
      ensures deleted == (name in Names(old(caches)))
      ensures caches == Purge(old(caches), {name})
    {
      deleted := name in Names(caches);
      DistinctPurge(caches, {name});
      caches := Purge(caches, {name});
    }

    /** `cache.addAll(requests)` on the generation `name`, which the caller
        has opened. Every request is checked before any is fetched; all of
        them are then fetched; the batch is committed only when every fetch
        delivered an ok response and no URL repeats, otherwise nothing is
        stored. */
    method AddAll(name: string, requests: seq<Request>, net: Network) returns (ok: bool)
      requires Valid() && name in Names(caches)
      modifies this, net
      ensures Valid()
      ensures net.log == old(net.log) + (if forall r :: r in requests ==> Cacheable(r) then requests else [])
      ensures ok == AddAllSucceeds(requests, net.respond)
      ensures caches == if ok then SetEntries(old(caches), name, PutAll(EntriesOf(old(caches), name), requests, net.respond))
                        else old(caches)
    {
      if !(forall r :: r in requests ==> Cacheable(r)) {
        return false;
      }
      var outcomes := net.FetchAll(requests);
      if !(forall k :: 0 <= k < |outcomes| ==> outcomes[k].Delivered? && AddAllResponseOk(outcomes[k].response))
         || !DistinctUrls(requests) {
        assert !AddAllSucceeds(requests, net.respond) by {
          if !DistinctUrls(requests) {
          } else {
            var k :| 0 <= k < |outcomes| && !(outcomes[k].Delivered? && AddAllResponseOk(outcomes[k].response));
            assert requests[k] in requests;
          }
        }
        return false;
      }
      assert AddAllSucceeds(requests, net.respond) by {
        forall r | r in requests
          ensures net.respond(r).Delivered? && AddAllResponseOk(net.respond(r).response)
        {
          var k :| 0 <= k < |requests| && requests[k] == r;
          assert outcomes[k] == net.respond(r);
        }
      }
      var entries := PutAll(EntriesOf(caches, name), requests, net.respond);
      NamesOfSetEntries(caches, name, entries);
      caches := SetEntries(caches, name, entries);
      ok := true;
    }
  }

  /** The body of both install handlers: `caches.open(name)`, then
      `cache.addAll(requests)`. It succeeds exactly when every fetch delivers
      an ok response, and then holds every URL with the response fetched
      for it; on failure the generation is as `caches.open` left it. Other
      generations are never touched. */
  method OpenAndAddAll(storage: CacheStorage, name: string, requests: seq<Request>, net: Network) returns (ok: bool)
    requires storage.Valid()
    requires DistinctUrls(requests) && forall r :: r in requests ==> Cacheable(r)
    modifies storage, net
    ensures storage.Valid()
    ensures net.log == old(net.log) + requests
    ensures ok <==> forall r :: r in requests ==> net.respond(r).Delivered? && AddAllResponseOk(net.respond(r).response)
    ensures ok ==> forall r :: r in requests ==>
      r.url in EntriesOf(storage.caches, name) && EntriesOf(storage.caches, name)[r.url] == net.respond(r).response
    ensures !ok ==> Find(storage.caches, name) ==
                    if name in Names(old(storage.caches)) then Find(old(storage.caches), name) else Some(map[])
    ensures forall n :: n != name ==> Find(storage.caches, n) == Find(old(storage.caches), n)
  {
    DistinctOpened(storage.caches, name);
    storage.Open(name);
    ghost var afterOpen := storage.caches;
    ok := storage.AddAll(name, requests, net);
    if ok {
      AddAllCommits(afterOpen, name, requests, net.respond);
    }
  }

  /** What a successful `addAll` into the open generation `name` leaves: every
      request's URL holds the response delivered for it, and every other
      generation is as it was. */
  lemma AddAllCommits(cs: seq<NamedCache>, name: string, requests: seq<Request>, respond: Request -> FetchOutcome)
    requires name in Names(cs) && AddAllSucceeds(requests, respond)
    ensures var after := SetEntries(cs, name, PutAll(EntriesOf(cs, name), requests, respond));
      && (forall r :: r in requests ==> r.url in EntriesOf(after, name) && EntriesOf(after, name)[r.url] == respond(r).response)
      && (forall n :: n != name ==> Find(after, n) == Find(cs, n))
  {
    var e := PutAll(EntriesOf(cs, name), requests, respond);
    PutAllContents(EntriesOf(cs, name), requests, respond);
    FindSetEntries(cs, name, e, name);
    forall n | n != name ensures Find(SetEntries(cs, name, e), n) == Find(cs, n) {
      FindSetEntries(cs, name, e, n);
    }
  }

  /** The body of both activate handlers: every generation whose name is not
      on the whitelist `[current]` is deleted, one `caches.delete` per name
      from `caches.keys()`; the current one keeps its entries. */
  method DeleteAllBut(storage: CacheStorage, current: string)
    requires storage.Valid()
    modifies storage
    ensures storage.Valid()
    ensures storage.caches == Activated(old(storage.caches), current)
    ensures Names(storage.caches) == Names(old(storage.caches)) * {current}
    ensures Find(storage.caches, current) == Find(old(storage.caches), current)
  {
    ActivatedKeepsCurrent(storage.caches, current);
    var cacheWhitelist := [current];
    var cacheNames := storage.Keys();
    assert Doomed(cacheNames[..0], cacheWhitelist) == {};
    PurgeAbsent(storage.caches, {});
    for i := 0 to |cacheNames|
      invariant storage.Valid()
      invariant storage.caches == Purge(old(storage.caches), Doomed(cacheNames[..i], cacheWhitelist))
    {
      DoomedStep(old(storage.caches), cacheNames, i, cacheWhitelist);
      if cacheNames[i] !in cacheWhitelist {
        var _ := storage.Delete(cacheNames[i]);
      }
    }
    assert cacheNames[..|cacheNames|] == cacheNames;
    DoomedAll(old(storage.caches), cacheWhitelist, current);
  }
}
