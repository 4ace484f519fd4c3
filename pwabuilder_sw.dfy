/** The PWABuilder-style offline worker (generation tag v9): install seeds
    the current generation from a fixed manifest, fetch is cache-first and
    stores network responses with status 200 or 0, activate deletes every
    other generation. */
module PwabuilderSw {
  import opened Common
  import opened CacheApi

  const CACHE_NAME: string := "artisan-connect-cache-v9"

  /** The scheme prefix of the four absolute https entries; each of them is
      written in the manifest as one string literal starting with it. */
  const HTTPS: string := "https://"

  /** The manifest's relative paths, in its order: the root files, the
      component modules, then the icons. */
  const ROOT_FILES: seq<string> := [
    "/",
    "index.html",
    "manifest.json",
    "metadata.json",
    "index.tsx",
    "App.tsx",
    "types.ts",
    "constants.ts"
  ]

  const COMPONENT_FILES: seq<string> := [
    "components/icons.tsx",
    "components/StarRating.tsx",
    "components/ArtisanCard.tsx",
    "components/ArtisanProfileModal.tsx",
    "components/FilterPanel.tsx",
    "components/SplashScreen.tsx",
    "components/icon.svg"
  ]

  const ICON_FILES: seq<string> := [
    "maskable-icon.svg",
    "icons/icon-192x192.png",
    "icons/icon-512x512.png",
    "icons/maskable_icon.png"
  ]

  /** The first 19 entries of the manifest: the app shell. */
  const APP_SHELL: seq<string> := ROOT_FILES + COMPONENT_FILES + ICON_FILES

  const URLS_TO_CACHE: seq<string> := APP_SHELL + [
    HTTPS + "cdn.tailwindcss.com",
    HTTPS + "fonts.googleapis.com/css2?family=Amiri:wght@400;700&family=Tajawal:wght@400;500;700&family=Cairo:wght@900&display=swap",
    HTTPS + "aistudiocdn.com/react@^19.2.0",
    HTTPS + "aistudiocdn.com/react-dom@^19.2.0/client"
  ]

  /** The manifest holds 23 distinct URLs, every one of them fetchable over
      http(s), so only the network decides whether `addAll` succeeds. */
  lemma ManifestWellFormed()
    ensures |ReloadRequests(URLS_TO_CACHE)| == 23
    ensures DistinctUrls(ReloadRequests(URLS_TO_CACHE))
    ensures forall r :: r in ReloadRequests(URLS_TO_CACHE) ==> Cacheable(r)
  {
    var rs := ReloadRequests(URLS_TO_CACHE);
    forall i, j | 0 <= i < j < |rs| ensures rs[i].url != rs[j].url {
      ManifestDistinct(i, j);
    }
    forall r | r in rs ensures Cacheable(r) {
      var i :| 0 <= i < |rs| && rs[i] == r;
      assert IsHttpUrl(URLS_TO_CACHE[i]) by { ManifestHttp(i); }
    }
  }

  /** The first 19 entries are relative paths, with no colon in them. */
  lemma AppShellEntry(i: nat)
    requires i < 19
    ensures ':' !in URLS_TO_CACHE[i]
  {
    ShellEntry(i);
    if i < 8 {
      RootFile(i);
    } else if i < 15 {
      ComponentFile(i - 8);
    } else {
      IconFile(i - 15);
    }
  }

  /** Where entry `i` of the app shell sits in its group. */
  lemma ShellEntry(i: nat)
    requires i < 19
    ensures i < 8 ==> URLS_TO_CACHE[i] == ROOT_FILES[i]
    ensures 8 <= i < 15 ==> URLS_TO_CACHE[i] == COMPONENT_FILES[i - 8]
    ensures 15 <= i ==> URLS_TO_CACHE[i] == ICON_FILES[i - 15]
  {
    assert URLS_TO_CACHE[i] == APP_SHELL[i];
  }

  /** The root files are short and free of colons. */
  lemma RootFile(k: nat)
    requires k < |ROOT_FILES|
    ensures ':' !in ROOT_FILES[k] && |ROOT_FILES[k]| <= 13
  {
  }

  /** The component paths are free of colons, and longer than any root file. */
  lemma ComponentFile(k: nat)
    requires k < |COMPONENT_FILES|
    ensures ':' !in COMPONENT_FILES[k] && |COMPONENT_FILES[k]| in {19, 20, 25, 26, 27, 34}
  {
  }

  /** The icon paths are free of colons, with lengths no component path has. */
  lemma IconFile(k: nat)
    requires k < |ICON_FILES|
    ensures ':' !in ICON_FILES[k] && |ICON_FILES[k]| in {17, 22, 23}
  {
  }

  /** The 19 app-shell entries are pairwise distinct: within a group by
      their text, across groups by their lengths. */
  lemma ShellDistinct(i: nat, j: nat)
    requires i < j < 19
    ensures URLS_TO_CACHE[i] != URLS_TO_CACHE[j]
  {
    ShellEntry(i);
    ShellEntry(j);
    var u, v := URLS_TO_CACHE[i], URLS_TO_CACHE[j];
    if j < 8 {
      RootFilesDistinct(i, j);
    } else if j < 15 {
      if i < 8 {
        RootFile(i);
        ComponentFile(j - 8);
        assert |u| != |v|;
      } else {
        ComponentFilesDistinct(i - 8, j - 8);
      }
    } else if i < 15 {
      IconFile(j - 15);
      if i < 8 {
        RootFile(i);
      } else {
        ComponentFile(i - 8);
      }
      assert |u| != |v|;
    } else {
      IconFilesDistinct(i - 15, j - 15);
    }
  }

  lemma RootFilesDistinct(a: nat, b: nat)
    requires a < b < |ROOT_FILES|
    ensures ROOT_FILES[a] != ROOT_FILES[b]
  {
  }

  lemma ComponentFilesDistinct(a: nat, b: nat)
    requires a < b < |COMPONENT_FILES|
    ensures COMPONENT_FILES[a] != COMPONENT_FILES[b]
  {
  }

  lemma IconFilesDistinct(a: nat, b: nat)
    requires a < b < |ICON_FILES|
    ensures ICON_FILES[a] != ICON_FILES[b]
  {
  }

  /** The last four entries are absolute https URLs. */
  lemma AbsoluteEntry(i: nat)
    requires 19 <= i < |URLS_TO_CACHE|
    ensures StartsWith(URLS_TO_CACHE[i], "https:") && URLS_TO_CACHE[i][5] == ':'
  {
    assert URLS_TO_CACHE[i][..|HTTPS|] == HTTPS;
  }

  lemma ManifestDistinct(i: nat, j: nat)
    requires i < j < |URLS_TO_CACHE|
    ensures URLS_TO_CACHE[i] != URLS_TO_CACHE[j]
  {
    if j < 19 {
      ShellDistinct(i, j);
    } else if i < 19 {
      AppShellEntry(i);
      AbsoluteEntry(j);
      assert URLS_TO_CACHE[j][5] in URLS_TO_CACHE[j];
    } else {
      assert |URLS_TO_CACHE[i]| != |URLS_TO_CACHE[j]|;
    }
  }

  lemma ManifestHttp(i: nat)
    requires i < |URLS_TO_CACHE|
    ensures IsHttpUrl(URLS_TO_CACHE[i])
  {
    var u := URLS_TO_CACHE[i];
    if i < 19 {
      AppShellEntry(i);
      RelativeHasNoScheme(u);
    } else {
      AbsoluteEntry(i);
      HttpsScheme(u);
    }
  }

  /** The install handler: open the current generation, then `addAll` the
      manifest. Install succeeds exactly when every manifest fetch delivers
      an ok response; it then holds every manifest URL with the response
      fetched for it. On failure nothing is added (the generation exists,
      since `caches.open` created it). Other generations are never touched. */
  method Install(storage: CacheStorage, net: Network) returns (installed: bool)
    requires storage.Valid()
    modifies storage, net
    ensures storage.Valid()
    ensures net.log == old(net.log) + ReloadRequests(URLS_TO_CACHE)
    ensures installed <==> forall r :: r in ReloadRequests(URLS_TO_CACHE) ==>
      net.respond(r).Delivered? && AddAllResponseOk(net.respond(r).response)
    ensures installed ==> forall r :: r in ReloadRequests(URLS_TO_CACHE) ==>
      r.url in EntriesOf(storage.caches, CACHE_NAME) &&
      EntriesOf(storage.caches, CACHE_NAME)[r.url] == net.respond(r).response
    ensures !installed ==> Find(storage.caches, CACHE_NAME) ==
                           if CACHE_NAME in Names(old(storage.caches)) then Find(old(storage.caches), CACHE_NAME) else Some(map[])
    ensures forall n :: n != CACHE_NAME ==> Find(storage.caches, n) == Find(old(storage.caches), n)
  {
    ManifestWellFormed();
    installed := OpenAndAddAll(storage, CACHE_NAME, ReloadRequests(URLS_TO_CACHE), net);
  }

  /** Line 54 negated: a network response is worth caching when its status
      is 200, or 0 (an opaque cross-origin response). */
  predicate ShouldCache(resp: Response) {
    resp.status == 200 || resp.status == 0
  }

  /** The fetch handler, cache-first. A hit in any generation is returned as
      it is, with no network request and no cache write. On a miss the
      request goes to the network; the page receives the network's response
      whatever its status, and a copy goes into the current generation when
      `ShouldCache` holds (a write the Cache API may refuse, which the page
      never notices). A transport failure reaches the page as a network
      error. */
  method HandleFetch(storage: CacheStorage, net: Network, req: Request) returns (reply: Reply)
    requires storage.Valid()
    modifies storage, net
    ensures storage.Valid()
    ensures old(storage.Match(req)).Some? ==>
      reply == Respond(old(storage.Match(req)).value) && storage.caches == old(storage.caches) && net.log == old(net.log)
    ensures old(storage.Match(req)).None? ==> net.log == old(net.log) + [req]
    ensures old(storage.Match(req)).None? && net.respond(req).NetworkFailure? ==>
      reply == NetworkError && storage.caches == old(storage.caches)
    ensures old(storage.Match(req)).None? && net.respond(req).Delivered? ==>
      var resp := net.respond(req).response;
      reply == Respond(resp) &&
      storage.caches == if ShouldCache(resp) then AfterPut(old(storage.caches), CACHE_NAME, req, resp) else old(storage.caches)
    ensures (old(storage.Match(req)).None? && net.respond(req).Delivered? &&
             ShouldCache(net.respond(req).response) && PutAccepts(req, net.respond(req).response)) ==>
            storage.Match(req) == Some(net.respond(req).response)
  {
    var hit := storage.Match(req);
    if hit.Some? {
      return Respond(hit.value);
    }
    var outcome := net.Fetch(req);
    if outcome.NetworkFailure? {
      return NetworkError;
    }
    var response := outcome.response;
    if !ShouldCache(response) {
      return Respond(response);
    }
    var responseToCache := response;
    if PutAccepts(req, response) {
      MatchAfterPut(storage.caches, CACHE_NAME, req, response);
    }
    storage.Open(CACHE_NAME);
    var _ := storage.Put(CACHE_NAME, req, responseToCache);
    reply := Respond(response);
  }

  /** The activate handler: every generation not on the whitelist
      `[CACHE_NAME]` is deleted; the current one keeps its entries. */
  method Activate(storage: CacheStorage)
    requires storage.Valid()
    modifies storage
    ensures storage.Valid()
    ensures storage.caches == Activated(old(storage.caches), CACHE_NAME)
    ensures Names(storage.caches) == Names(old(storage.caches)) * {CACHE_NAME}
    ensures Find(storage.caches, CACHE_NAME) == Find(old(storage.caches), CACHE_NAME)
  {
    DeleteAllBut(storage, CACHE_NAME);
  }
}
