/** The older offline worker (generation tag v2): install seeds the current
    generation from a fixed manifest, fetch is cache-first and stores every
    network response except a failed or non-basic one from the AI Studio
    CDN, activate deletes every other generation. */
module ServiceWorker {
  import opened Common
  import opened CacheApi

  const CACHE_NAME: string := "artisan-connect-cache-v2"

  /** The scheme prefix of the four absolute https entries; the manifest
      spells each of them out in full. */
  const HTTPS: string := "https://"

  /** The first label shared by the three font URLs. */
  const FONTS: string := "fonts."

  const URLS_TO_CACHE: seq<string> := [
    "/",
    "/index.html",
    "/icon.svg",
    "/maskable-icon.svg",
    "/index.tsx",
    "/App.tsx",
    "/types.ts",
    "/constants.ts",
    "/components/icons.tsx",
    "/components/StarRating.tsx",
    "/components/ArtisanCard.tsx",
    "/components/ArtisanProfileModal.tsx",
    "/components/FilterPanel.tsx",
    HTTPS + "cdn.tailwindcss.com",
    HTTPS + FONTS + "googleapis.com/css2?family=Amiri:wght@400;700&family=Tajawal:wght@400;500;700&display=swap",
    HTTPS + FONTS + "gstatic.com/s/tajawal/v9/Iura6YBwB5j_7_j23J-h-JM53g.woff2",
    HTTPS + FONTS + "gstatic.com/s/amiri/v20/J7acnpd8CGxBHpU2iL_S-Q.woff2"
  ]

  /** The origin whose unsuccessful or non-basic responses are not cached. */
  const CDN_PREFIX: string := "https://aistudiocdn.com"

  /** The manifest holds 17 distinct URLs, every one of them fetchable over
      http(s), so only the network decides whether `addAll` succeeds. */
  lemma ManifestWellFormed()
    ensures |ReloadRequests(URLS_TO_CACHE)| == 17
    ensures DistinctUrls(ReloadRequests(URLS_TO_CACHE))
    ensures forall r :: r in ReloadRequests(URLS_TO_CACHE) ==> Cacheable(r)
  {
    var rs := ReloadRequests(URLS_TO_CACHE);
    forall i, j | 0 <= i < j < |rs| ensures rs[i].url != rs[j].url {
      ManifestDistinct(i, j);
    }
    forall r | r in rs ensures Cacheable(r) {
      var i :| 0 <= i < |rs| && rs[i] == r;
      assert IsHttpUrl(URLS_TO_CACHE[i]) by { ManifestHttp(i); }
    }
  }

  /** The first 13 entries are origin-relative paths, with no colon in them. */
  lemma AppShellEntry(i: nat)
    requires i < 13
    ensures ':' !in URLS_TO_CACHE[i]
  {
    var shell := URLS_TO_CACHE[..13];
    assert URLS_TO_CACHE[i] == shell[i];
  }

  /** The last four entries are absolute https URLs. */
  lemma AbsoluteEntry(i: nat)
    requires 13 <= i < |URLS_TO_CACHE|
    ensures StartsWith(URLS_TO_CACHE[i], "https:") && URLS_TO_CACHE[i][5] == ':'
  {
    assert URLS_TO_CACHE[i][..|HTTPS|] == HTTPS;
  }

  lemma ManifestDistinct(i: nat, j: nat)
    requires i < j < |URLS_TO_CACHE|
    ensures URLS_TO_CACHE[i] != URLS_TO_CACHE[j]
  {
    if j < 13 {
      assert URLS_TO_CACHE[..13][i] != URLS_TO_CACHE[..13][j];
    } else if i < 13 {
      AppShellEntry(i);
      AbsoluteEntry(j);
      assert URLS_TO_CACHE[j][5] in URLS_TO_CACHE[j];
    } else {
      assert |URLS_TO_CACHE[i]| != |URLS_TO_CACHE[j]|;
    }
  }

  lemma ManifestHttp(i: nat)
    requires i < |URLS_TO_CACHE|
    ensures IsHttpUrl(URLS_TO_CACHE[i])
  {
    var u := URLS_TO_CACHE[i];
    if i < 13 {
      AppShellEntry(i);
      RelativeHasNoScheme(u);
    } else {
      AbsoluteEntry(i);
      HttpsScheme(u);
    }
  }

  /** No manifest URL lies under the AI Studio CDN, so the fetch guard of
      lines 48-53 never applies to a manifest URL: every manifest URL that
      misses the cache is stored whatever the network answers. */
  lemma ManifestOffCdn()
    ensures forall i :: 0 <= i < |URLS_TO_CACHE| ==> !StartsWith(URLS_TO_CACHE[i], CDN_PREFIX)
  {
    forall i | 0 <= i < |URLS_TO_CACHE| ensures !StartsWith(URLS_TO_CACHE[i], CDN_PREFIX) {
      EntryOffCdn(i);
    }
  }

  lemma EntryOffCdn(i: nat)
    requires i < |URLS_TO_CACHE|
    ensures !StartsWith(URLS_TO_CACHE[i], CDN_PREFIX)
  {
    var u := URLS_TO_CACHE[i];
    if i < 13 {
      AppShellEntry(i);
      if 5 < |u| {
        assert u[5] in u;
      }
      DiffersAt(u, CDN_PREFIX, 5);
    } else if i == 13 {
      HostOffCdn("cdn.tailwindcss.com");
    } else if i == 14 {
      FontsOffCdn("googleapis.com/css2?family=Amiri:wght@400;700&family=Tajawal:wght@400;500;700&display=swap");
    } else if i == 15 {
      FontsOffCdn("gstatic.com/s/tajawal/v9/Iura6YBwB5j_7_j23J-h-JM53g.woff2");
    } else {
      FontsOffCdn("gstatic.com/s/amiri/v20/J7acnpd8CGxBHpU2iL_S-Q.woff2");
    }
  }

  /** An https URL whose host does not start with `a` is off the CDN. */
  lemma HostOffCdn(host: string)
    requires host != [] && host[0] != 'a'
    ensures !StartsWith(HTTPS + host, CDN_PREFIX)
  {
    assert (HTTPS + host)[8] == host[0];
    DiffersAt(HTTPS + host, CDN_PREFIX, 8);
  }

  /** The font URLs are off the CDN. */
  lemma FontsOffCdn(path: string)
    ensures !StartsWith(HTTPS + FONTS + path, CDN_PREFIX)
  {
    assert (HTTPS + FONTS + path)[8] == FONTS[0];
    DiffersAt(HTTPS + FONTS + path, CDN_PREFIX, 8);
  }

  /** A string that is too short for `prefix`, or differs from it at `k`,
      does not start with it. */
  lemma DiffersAt(u: string, prefix: string, k: nat)
    requires k < |prefix| && (k < |u| ==> u[k] != prefix[k])
    ensures !StartsWith(u, prefix)
  {
    if |prefix| <= |u| {
      assert u[..|prefix|][k] == u[k];
    }
  }

  /** The install handler: open the current generation, then `addAll` the
      manifest. Install succeeds exactly when every manifest fetch delivers
      an ok response; it then holds every manifest URL with the response
      fetched for it. On failure nothing is added (the generation exists,
      since `caches.open` created it). Other generations are never touched. */
  method Install(storage: CacheStorage, net: Network) returns (installed: bool)
    requires storage.Valid()
    modifies storage, net
    ensures storage.Valid()
    ensures net.log == old(net.log) + ReloadRequests(URLS_TO_CACHE)
    ensures installed <==> forall r :: r in ReloadRequests(URLS_TO_CACHE) ==>
      net.respond(r).Delivered? && AddAllResponseOk(net.respond(r).response)
    ensures installed ==> forall r :: r in ReloadRequests(URLS_TO_CACHE) ==>
      r.url in EntriesOf(storage.caches, CACHE_NAME) &&
      EntriesOf(storage.caches, CACHE_NAME)[r.url] == net.respond(r).response
    ensures !installed ==> Find(storage.caches, CACHE_NAME) ==
                           if CACHE_NAME in Names(old(storage.caches)) then Find(old(storage.caches), CACHE_NAME) else Some(map[])
    ensures forall n :: n != CACHE_NAME ==> Find(storage.caches, n) == Find(old(storage.caches), n)
  {
    ManifestWellFormed();
    installed := OpenAndAddAll(storage, CACHE_NAME, ReloadRequests(URLS_TO_CACHE), net);
  }

  /** The guard of lines 48-53: a response that is not a basic 200 is
      passed through uncached only when the request goes to the CDN. */
  predicate SkipsCaching(req: Request, resp: Response) {
    (resp.status != 200 || resp.kind != Basic) && StartsWith(req.url, CDN_PREFIX)
  }

  /** The fetch handler, cache-first. A hit in any generation is returned as
      it is, with no network request and no cache write. On a miss the
      request goes to the network; the page receives the network's response
      whatever its status, and a copy goes into the current generation unless
      `SkipsCaching` holds (a write the Cache API may refuse, which the page
      never notices). A transport failure reaches the page as a network
      error. */
  method HandleFetch(storage: CacheStorage, net: Network, req: Request) returns (reply: Reply)
    requires storage.Valid()
    modifies storage, net
    ensures storage.Valid()
    ensures old(storage.Match(req)).Some? ==>
      reply == Respond(old(storage.Match(req)).value) && storage.caches == old(storage.caches) && net.log == old(net.log)
    ensures old(storage.Match(req)).None? ==> net.log == old(net.log) + [req]
    ensures old(storage.Match(req)).None? && net.respond(req).NetworkFailure? ==>
      reply == NetworkError && storage.caches == old(storage.caches)
    ensures old(storage.Match(req)).None? && net.respond(req).Delivered? ==>
      var resp := net.respond(req).response;
      reply == Respond(resp) &&
      storage.caches == if SkipsCaching(req, resp) then old(storage.caches) else AfterPut(old(storage.caches), CACHE_NAME, req, resp)
    ensures (old(storage.Match(req)).None? && net.respond(req).Delivered? &&
             !SkipsCaching(req, net.respond(req).response) && PutAccepts(req, net.respond(req).response)) ==>
            storage.Match(req) == Some(net.respond(req).response)
  {
    var hit := storage.Match(req);
    if hit.Some? {
      return Respond(hit.value);
    }
    var outcome := net.Fetch(req);
    if outcome.NetworkFailure? {
      return NetworkError;
    }
    var response := outcome.response;
    if response.status != 200 || response.kind != Basic {
      if StartsWith(req.url, CDN_PREFIX) {
        return Respond(response);
      }
    }
    var responseToCache := response;
    if PutAccepts(req, response) {
      MatchAfterPut(storage.caches, CACHE_NAME, req, response);
    }
    storage.Open(CACHE_NAME);
    var _ := storage.Put(CACHE_NAME, req, responseToCache);
    reply := Respond(response);
  }

  /** Outside the CDN the guard never fires: an error status from the app's
      own origin (a 404, a 500) is stored and served from then on. */
  lemma ErrorStatusCachedOffCdn(cs: seq<NamedCache>, req: Request, resp: Response)
    requires DistinctNames(cs) && MatchIn(cs, req) == None
    requires !StartsWith(req.url, CDN_PREFIX) && PutAccepts(req, resp)
    ensures !SkipsCaching(req, resp)
    ensures MatchIn(AfterPut(cs, CACHE_NAME, req, resp), req) == Some(resp)
  {
    MatchAfterPut(cs, CACHE_NAME, req, resp);
  }

  /** The activate handler: every generation not on the whitelist
      `[CACHE_NAME]` is deleted; the current one keeps its entries. */
  method Activate(storage: CacheStorage)
    requires storage.Valid()
    modifies storage
    ensures storage.Valid()
    ensures storage.caches == Activated(old(storage.caches), CACHE_NAME)
    ensures Names(storage.caches) == Names(old(storage.caches)) * {CACHE_NAME}
    ensures Find(storage.caches, CACHE_NAME) == Find(old(storage.caches), CACHE_NAME)
  {
    DeleteAllBut(storage, CACHE_NAME);
  }
}
