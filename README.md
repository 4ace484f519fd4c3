# Herafi artisan directory: offline cache and marketplace logic in Dafny

Herafi is a browser front-end that lists tradespeople ("artisans"). Visitors
can search the list, filter it and review artisans. A hidden administrator
panel adds, edits and deletes artisans. Everything is kept in the browser's
local storage. An offline service worker caches the application shell.

This project models that code in Dafny and proves properties of the model.

- **The offline cache** comes in two versions of the worker:
  `pwabuilder-sw.js` (generation `artisan-connect-cache-v9`) and
  `service-worker.js` (generation `artisan-connect-cache-v2`).
  - Module `CacheApi` models the part of the browser's Cache Storage the
    workers use, as the W3C Service Workers specification defines it. That
    is an ordered list of named caches ("generations"), each mapping a
    request URL to a response. `caches.match`, `caches.open`, `caches.keys`,
    `caches.delete`, `cache.put` and `cache.addAll` are methods of the class
    `CacheStorage`. `fetch` is the class `Network`, which answers every
    request with a fixed function and logs the requests issued.
  - Modules `PwabuilderSw` and `ServiceWorker` model each worker's manifest
    and its install, fetch and activate handlers.
- **The marketplace** lives in `App.tsx` and three components.
  - `Types`: the records of `types.ts` and the constants of `constants.ts`.
  - `Api`: the simulated back end over local storage.
  - `Rating`: the average-rating loop, which the code repeats three times.
  - `Browse`: the filtered list and the best artisan of every trade.
  - `ArtisanForm`: the administrator's form, including the comma-separated
    list fields.
  - `App`: the App component's state and handlers, and the password dialog.
  - `ArtisanCard`: the card shown for each artisan.
  - `ArtisanProfile`: the profile dialog's circular gallery and its review
    form.
  - `PwaFeatures`: `urlBase64ToUint8Array`, including a concrete `atob`.
    `atob` is the forgiving-base64 decode of the WHATWG HTML standard.
    RFC 4648 defines the alphabets (section 4, and section 5 for the
    URL-safe one).
- `Common` holds shared helpers: `Option`, `Filter` with its lemmas, and
  decimal rendering.

State that the code changes in place becomes a class with fields:
- `Api.LocalStorage` for local storage;
- `CacheApi.CacheStorage` for Cache Storage;
- `App.App`, `App.AdminLoginModal`, `ArtisanForm.ArtisanFormModal`,
  `ArtisanProfile.GalleryView` and `ArtisanProfile.ReviewForm` for React
  component state.

Each handler is a method, and its `ensures` states the whole new state in
terms of specification functions. The loops in the code are methods with
loop invariants:
- the averaging loop;
- the scan the trade showcase's sort performs;
- the showcase loop over `TRADES`;
- the activate loop over `caches.keys()`;
- `addAll`'s fetch loop;
- the `Uint8Array` fill.

Where the code and the written design of the system disagree, the model
follows the code:
- **A failed install is not all-or-nothing.** The design calls install
  all-or-nothing: no generation should exist if a manifest fetch fails.
  Both workers call `caches.open(CACHE_NAME)` before `addAll`, so a failed
  install leaves an empty current generation, or the previous one
  unchanged. `Install` states exactly that.
- **The fetch handler is cache-first for everything.** The design describes
  network-first navigation with an offline fallback page. Neither worker has
  this: a transport failure on a cache miss reaches the page as a network
  error (`HandleFetch`).
- **v2 caches error statuses.** The design says error statuses pass through
  uncached. The v2 guard only skips caching for the AI Studio CDN, so a 404
  or 500 from elsewhere is stored. `ServiceWorker.ErrorStatusCachedOffCdn`
  proves this.
- **Activation can leave no generation.** The design expects exactly one
  generation after activation. The code keeps the current one only if it
  exists, so the result can be empty (`Activate`).

## Model

| member | source | states |
|---|---|---|
| Types.ImageAt | components/ArtisanProfileModal.tsx:139 | the picture shown is never empty: the slot's picture when the index is in range and the slot is non-empty, otherwise the placeholder, which is also shown whenever the index is out of range |
| Types.FormData.WithProfile | App.tsx:192 | replacing the form's fields keeps the form's kind, and an existing artisan keeps its id and reviews |
| Common.Filter | App.tsx:59 | `Array.prototype.filter`: never longer than its input, and an element is in the result exactly when it is in the input and passes |
| Common.FilterSubsequence | App.tsx:59 | the filtered list keeps the input's order (a subsequence) |
| Common.FilterMultiset | App.tsx:59 | each element occurs in the result as often as in the input when it passes, and not at all otherwise |
| Common.DecimalInjective | App.tsx:30 | different timestamps render as different decimal strings |
| Api.ReplaceById | App.tsx:46 | same length; every artisan with the update's id becomes the update, and all others stay in place |
| Api.RemoveById | App.tsx:59 | no artisan with the id remains; every other artisan remains, in order |
| Api.WithReview | App.tsx:77-79 | same length; every artisan with the id gains the review at the end of its reviews, and all others are unchanged |
| Api.LocalStorage.FetchArtisans | App.tsx:13-22 | resolves to the stored list, or `[]` before the first write |
| Api.LocalStorage.AddArtisan | App.tsx:24-40 | the new artisan gets the id `artisan-<now>` and no reviews, and is appended to the stored list |
| Api.LocalStorage.UpdateArtisan | App.tsx:42-53 | the stored list becomes `ReplaceById` of the old one, and the update is returned |
| Api.LocalStorage.DeleteArtisan | App.tsx:55-66 | the stored list becomes `RemoveById` of the old one |
| Api.LocalStorage.AddReview | App.tsx:68-86 | the review gets the id `r<now>` and today's date, and is appended to the matching artisans in storage |
| Api.ReplaceKeepsIds | App.tsx:46 | an update never adds, drops or reorders ids |
| Api.WithReviewKeepsIds | App.tsx:77-79 | adding a review never adds, drops or reorders artisans |
| Api.WithReviewUnknownId | App.tsx:77-79 | a review for an unknown id changes nothing |
| Api.RemoveIdempotent | App.tsx:59 | deleting the same id twice is the same as deleting it once |
| Api.ReplaceIdempotent | App.tsx:46 | saving the same update twice is the same as saving it once |
| Api.ArtisanIdsDistinct | App.tsx:30 | artisans added at different times get different ids |
| Rating.ReviewAverage | components/ArtisanProfileModal.tsx:118-121 | four times a review's average is the sum of its criteria, and it lies in [1, 5] when every criterion does |
| Rating.GetAverageRating | App.tsx:336-345 | the loop computes the total of all criteria over four per review, and 0 for no reviews; the identical copies in `getAverageRating` of ArtisanCard.tsx (lines 12-25) and `getArtisanAverageRating` of ArtisanProfileModal.tsx (lines 106-116) are this same method |
| Rating.TotalAppend | App.tsx:339-343 | a review appended adds its own four criteria to the total |
| Rating.TotalBounds | App.tsx:339-343 | with every criterion in 1..5, the total lies between 4 and 20 per review |
| Rating.AverageBounds | App.tsx:336-345 | a reviewed artisan whose criteria are all in 1..5 has an average in [1, 5] |
| Rating.AverageIsMeanOfReviewAverages | components/ArtisanProfileModal.tsx:106-121 | the artisan's average equals the mean of the per-review averages shown next to each review |
| Browse.FilteredArtisans | App.tsx:347-362 | the listed artisans keep list order, and an artisan is listed exactly when it passes the trade, experience, city, rating and search tests |
| Browse.DefaultViewListsAll | App.tsx:435 | with no search and no filter, every artisan is listed |
| Browse.TradeOnlyListsTrade | App.tsx:352 | selecting only a trade lists exactly that trade's artisans, in order |
| Browse.BetterTransitive | App.tsx:370-377 | the comparator's order is transitive |
| Browse.BetterThanNotBetter | App.tsx:370-377 | anything better than `b` is better than whatever is not better than `b` (a strict weak order) |
| Browse.TopIsFirst | App.tsx:370-378 | the chosen artisan is a candidate, and every candidate before it is strictly worse, as in a stable sort |
| Browse.TopIsMaximal | App.tsx:370-378 | no candidate has a higher average, or an equal average with more reviews |
| Browse.PickTop | App.tsx:370-378 | the scan returns the first best candidate |
| Browse.TopArtisansByTrade | App.tsx:364-382 | the loop over `TRADES` builds the showcase map |
| Browse.OfTradeNonEmpty | App.tsx:367-368 | a trade's list is non-empty exactly when some artisan practises it |
| Browse.TopByTradeEntries | App.tsx:366-380 | a trade has an entry exactly when it is visited and has artisans, and the entry is its first best artisan |
| Browse.TopByTradeKeys | App.tsx:364-382 | the showcase has an entry for a trade exactly when it is one of `TRADES` and some artisan practises it |
| Browse.TopArtisanIsBestOfTrade | App.tsx:364-382 | a showcase entry is listed, practises its trade, no artisan of the trade is better, and every earlier artisan of the trade is strictly worse |
| ArtisanForm.Split | App.tsx:191 | `split(',')` yields at least one piece, and no piece contains a comma |
| ArtisanForm.JoinSplit | App.tsx:191 | joining the pieces with commas gives back the text |
| ArtisanForm.SplitJoin | App.tsx:191 | splitting comma-free pieces joined by commas gives back the pieces |
| ArtisanForm.SplitAppend | App.tsx:191 | the text before the first comma is the first piece |
| ArtisanForm.LeadingSpaces | App.tsx:191 | counts exactly the whitespace `trim` strips from the front |
| ArtisanForm.TrailingSpaces | App.tsx:191 | finds exactly the whitespace `trim` strips from the back |
| ArtisanForm.Trim | App.tsx:191 | `trim()` returns a middle slice with no whitespace at either end, and everything dropped is whitespace |
| ArtisanForm.TrimTrimmed | App.tsx:191 | trimming an already-trimmed entry, with or without one leading space, changes nothing |
| ArtisanForm.TrimAll | App.tsx:191 | `.map(item => item.trim())` trims each piece in place |
| ArtisanForm.ParseList | App.tsx:191 | every parsed entry is non-empty, has no comma and has no surrounding whitespace |
| ArtisanForm.ParseJoinedList | App.tsx:191 | parsing the default text `join(', ')` of well-formed entries gives back the same entries |
| ArtisanForm.ParseEmpty | App.tsx:191 | an empty field parses to an empty list |
| ArtisanForm.JoinSpaced | App.tsx:255 | the default text `join(', ')` equals the entries joined by commas with a space before every entry except the first |
| ArtisanForm.RemoveAt | App.tsx:212-214 | the picture at an in-range index is removed, and any other index removes nothing |
| ArtisanForm.StartingForm | App.tsx:176 | an artisan opened for editing keeps its id and reviews; otherwise the form starts from `initialArtisanState`, whose required fields are empty |
| ArtisanForm.ArtisanFormModal.constructor | App.tsx:175-177 | the form starts from `StartingForm`, with no error |
| ArtisanForm.ArtisanFormModal.ArtisanToEditChanged | App.tsx:181-183 | a new `artisanToEdit` reloads the form from it, or resets it |
| ArtisanForm.ArtisanFormModal.HandleArrayChange | App.tsx:190-193 | the chosen list field becomes the parsed text, and every other field stays |
| ArtisanForm.ArtisanFormModal.RemoveImage | App.tsx:212-214 | the gallery loses the picture at the index, and every other field stays |
| ArtisanForm.ArtisanFormModal.HandleSubmit | App.tsx:216-224 | nothing is saved exactly when name, phone, location or bio is empty, and then the error is shown; otherwise the error is cleared and the whole form is saved |
| App.NextPhase | App.tsx:308-321 | each splash timer brings the app exactly one step closer to ready |
| App.AfterTimers | App.tsx:308-321 | after `k` timers, `k` fewer remain; the app is ready exactly when all of them (two from the start) have fired |
| App.TimersToReady | App.tsx:308-321 | no splash timer is pending exactly when the app is ready |
| App.QuickClicks | App.tsx:406-418 | from zero, `n` quick logo clicks leave the count at `n % 3` and open the login `n / 3` times |
| App.ClicksSplit | App.tsx:406-418 | a run of clicks can be split into two consecutive runs |
| App.AdminLoginModal.HandleSubmit | App.tsx:98-106 | login succeeds exactly with the correct password; otherwise the error is shown |
| App.FindById | App.tsx:388 | `find` returns nothing exactly when no artisan has the id; otherwise it returns a listed artisan with that id |
| App.FindByIdFirst | App.tsx:388 | `find` returns the first artisan with the id |
| App.FindAfterReview | App.tsx:388 | after a review is added, looking the artisan up again gives the same record with the review appended |
| App.App.constructor | App.tsx:293-306 | the app starts splashing and loading, with an empty list, no filters, no administrator and a zero logo count |
| App.App.SplashTimerFires | App.tsx:308-321 | the pending splash timer advances the phase and brings the app one timer closer to ready |
| App.App.Load | App.tsx:323-334 | after loading, the list is what storage holds and the status is success |
| App.App.HandleLogoClick | App.tsx:406-418 | the third click opens the login and zeroes the count; any other click increments the count and arms a reset; the count stays in 0..2 |
| App.App.LogoTimerFires | App.tsx:416 | the pending reset zeroes the logo count |
| App.App.LoginSucceeded | App.tsx:580-583 | a successful login makes the user an administrator and closes the dialog |
| App.App.HandleSaveArtisan | App.tsx:391-399 | an edit replaces the artisan in storage and on screen; a new artisan is appended to both; a screen list that matched storage still matches it |
| App.App.HandleDeleteArtisan | App.tsx:401-404 | the artisan leaves storage and the screen, and a screen list that matched storage still matches it |
| App.App.ConfirmDeleteArtisan | App.tsx:230-236 | confirming in the form (wired to `handleDeleteArtisan` at App.tsx:591): in edit mode the edited artisan, by id, leaves storage and the screen, and every other artisan stays in order; in add mode nothing changes |
| App.App.HandleAddReview | App.tsx:384-389 | storage gains the review, the screen list is reloaded from storage, and an open profile of that artisan is refreshed |
| ArtisanCard.CardImage | components/ArtisanCard.tsx:37 | the card shows the first picture when it is non-empty, and the placeholder for an empty gallery; never an empty source |
| ArtisanCard.Card | components/ArtisanCard.tsx:28-37 | the card shows `CardImage` and the average rating, which is 0 with no reviews and in [1, 5] when every criterion is in 1..5 |
| ArtisanProfile.NextIndex | components/ArtisanProfileModal.tsx:89-92 | the next picture stays in range and wraps from the last to the first |
| ArtisanProfile.PrevIndex | components/ArtisanProfileModal.tsx:94-97 | the previous picture stays in range and wraps from the first to the last |
| ArtisanProfile.PrevNext | components/ArtisanProfileModal.tsx:89-97 | back after forward, and forward after back, return to the same picture |
| ArtisanProfile.NextTimesShift | components/ArtisanProfileModal.tsx:89-92 | up to `n` forward presses move that many pictures, wrapping at most once |
| ArtisanProfile.FullCircle | components/ArtisanProfileModal.tsx:89-92 | `n` forward presses in a gallery of `n` return to the starting picture |
| ArtisanProfile.GalleryView.SetArtisan | components/ArtisanProfileModal.tsx:100-102 | a new artisan resets the index to the first picture |
| ArtisanProfile.GalleryView.HasArrows | components/ArtisanProfileModal.tsx:140 | the arrows show exactly when the gallery has more than one picture |
| ArtisanProfile.GalleryView.Shown | components/ArtisanProfileModal.tsx:139 | the picture at the index is shown when it is non-empty, and the placeholder for an empty gallery |
| ArtisanProfile.GalleryView.NextImage | components/ArtisanProfileModal.tsx:89-92 | with an artisan, the index moves to `NextIndex` and stays valid; without one, nothing changes |
| ArtisanProfile.GalleryView.PrevImage | components/ArtisanProfileModal.tsx:94-97 | with an artisan, the index moves to `PrevIndex` and stays valid; without one, nothing changes |
| ArtisanProfile.WithRating | components/ArtisanProfileModal.tsx:21-23 | only the chosen criterion takes the new value |
| ArtisanProfile.CompleteIsValid | components/ArtisanProfileModal.tsx:26 | a review that passes the guard has every criterion in 1..5 and a non-empty name and comment |
| ArtisanProfile.ReviewForm.constructor | components/ArtisanProfileModal.tsx:16-19 | the form starts empty, with every criterion unset |
| ArtisanProfile.ReviewForm.HandleRatingChange | components/ArtisanProfileModal.tsx:21-23 | the chosen criterion takes the star value, and all criteria stay in 0..5 |
| ArtisanProfile.ReviewForm.HandleAddReview | components/ArtisanProfileModal.tsx:25-39 | nothing is submitted exactly when a field is empty or a criterion is unset, and then the error is shown and the input kept; otherwise the review is submitted as typed for this artisan, with valid ratings, and the form is cleared |
| PwaFeatures.Padding | components/PwaFeaturesModal.tsx:10 | at most three `=`, bringing the length to a multiple of four, and none exactly when it already is one |
| PwaFeatures.ToStandard | components/PwaFeaturesModal.tsx:11 | same length; every `-` becomes `+` and every `_` becomes `/`; all other characters stay |
| PwaFeatures.ToStandardAppend | components/PwaFeaturesModal.tsx:11 | the mapping works character by character across concatenation |
| PwaFeatures.Prepare | components/PwaFeaturesModal.tsx:10-11 | the string handed to `atob` has a length that is a multiple of four, at most three longer than the key |
| PwaFeatures.PreparePadded | components/PwaFeaturesModal.tsx:10-11 | the prepared string is the mapped key followed by exactly the padding, which the mapping leaves alone |
| PwaFeatures.Base64Value | components/PwaFeaturesModal.tsx:12 | a character has a value exactly when it is the standard alphabet's character for that value |
| PwaFeatures.StandardOfUrlChar | components/PwaFeaturesModal.tsx:11 | the mapping turns each URL-safe character into the standard character for the same value |
| PwaFeatures.Encode | components/PwaFeaturesModal.tsx:9-12 | an unpadded encoding never has length 4k+1 and never contains `=` |
| PwaFeatures.GroupRoundTrip | components/PwaFeaturesModal.tsx:12 | each group of one to three bytes decodes to the bytes it was encoded from |
| PwaFeatures.DecodeSextets | components/PwaFeaturesModal.tsx:12 | decoding undoes encoding for every byte string |
| PwaFeatures.Atob | components/PwaFeaturesModal.tsx:12 | `atob` yields a binary string: every character code is below 256 |
| PwaFeatures.StripAddedPadding | components/PwaFeaturesModal.tsx:10-12 | `atob` strips exactly the padding that line 10 added |
| PwaFeatures.AtobPrepared | components/PwaFeaturesModal.tsx:10-12 | `atob` of a prepared URL-safe key gives back the key's bytes |
| PwaFeatures.Uint8Latin1 | components/PwaFeaturesModal.tsx:13-16 | copying a binary string's codes into a `Uint8Array` gives back its bytes |
| PwaFeatures.ConvertedEncoded | components/PwaFeaturesModal.tsx:9-18 | a key published as unpadded base64url converts back to exactly its bytes |
| PwaFeatures.ConvertedRejectsStrayChar | components/PwaFeaturesModal.tsx:10-12 | a key of length 4k+1 without whitespace is rejected, because padding it gives three `=` |
| PwaFeatures.CodesBelow256 | components/PwaFeaturesModal.tsx:15 | on a binary string, every `Uint8Array` slot keeps its character's code |
| PwaFeatures.CharCodes | components/PwaFeaturesModal.tsx:13-16 | the array has one slot per character, each holding the character's code modulo 256 |
| PwaFeatures.UrlBase64ToUint8Array | components/PwaFeaturesModal.tsx:9-18 | fails exactly when `atob` rejects; otherwise returns one byte per decoded character, equal to its code, namely the converted bytes |
| CacheApi.Find | pwabuilder-sw.js:31 | a generation is found exactly when its name exists |
| CacheApi.Opened | pwabuilder-sw.js:31 | `caches.open` adds the name to the set of generations |
| CacheApi.SetEntries | pwabuilder-sw.js:36 | only the named generation's entries change |
| CacheApi.Purge | pwabuilder-sw.js:80 | exactly the generations whose names are not doomed remain |
| CacheApi.NameList | pwabuilder-sw.js:76 | `caches.keys()` lists every generation's name in order |
| CacheApi.RelativeHasNoScheme | pwabuilder-sw.js:3-21 | a URL without a colon is relative |
| CacheApi.HttpsScheme | pwabuilder-sw.js:22-25 | an `https:` URL has the https scheme |
| CacheApi.DistinctOpened | pwabuilder-sw.js:31 | opening keeps names distinct, creates an empty generation only when none exists, and leaves other generations alone |
| CacheApi.FindSetEntries | pwabuilder-sw.js:36 | after setting entries, the named generation has them and every other generation is unchanged |
| CacheApi.OpenAndAddAll | pwabuilder-sw.js:30-37 | the install body shared by both workers (also service-worker.js:25-32): `addAll` succeeds exactly when every fetch delivers an ok response, and then every request's URL holds its response; on failure the generation is only opened; other generations are untouched |
| CacheApi.AddAllCommits | pwabuilder-sw.js:36 | a committed `addAll` stores each request's delivered response under its URL and touches no other generation |
| CacheApi.DeleteAllBut | pwabuilder-sw.js:74-85 | the activate body shared by both workers (also service-worker.js:71-82): every generation off the whitelist is deleted, and the current one keeps its entries |
| CacheApi.MatchAfterPut | pwabuilder-sw.js:58-63 | after an accepted put on a miss, `caches.match` returns the stored response |
| CacheApi.NamesOfPurge | pwabuilder-sw.js:78-82 | purging removes exactly the doomed names |
| CacheApi.PurgePurge | pwabuilder-sw.js:78-82 | deleting names one after another is the same as deleting them together |
| CacheApi.ActivatedKeepsCurrent | pwabuilder-sw.js:73-86 | activation keeps at most the current generation, with its entries unchanged |
| CacheApi.ActivatedIdempotent | pwabuilder-sw.js:73-86 | activating twice is the same as activating once |
| CacheApi.MatchAfterActivate | pwabuilder-sw.js:73-86 | after activation, a lookup sees only the current generation's entries |
| CacheApi.PutAllContents | pwabuilder-sw.js:36 | after `addAll` commits, every manifest URL maps to its fetched response and every other key stays |
| CacheApi.Network.FetchAll | pwabuilder-sw.js:36 | one fetch per request, issued in order |
| CacheApi.Network.Fetch | pwabuilder-sw.js:50 | `fetch` settles to the network's answer and logs the request |
| CacheApi.CacheStorage.Keys | pwabuilder-sw.js:76 | `caches.keys()` returns the generation names in creation order |
| CacheApi.CacheStorage.Open | pwabuilder-sw.js:31 | `caches.open` creates the generation when it is missing |
| CacheApi.CacheStorage.Put | pwabuilder-sw.js:62 | `cache.put` stores the pair unless the request is not a cacheable GET or the response is a 206 |
| CacheApi.CacheStorage.Delete | pwabuilder-sw.js:80 | `caches.delete` removes the generation and reports whether it existed |
| CacheApi.CacheStorage.AddAll | pwabuilder-sw.js:36 | `addAll` commits every response exactly when every request is cacheable, every fetch is delivered with an ok status and no URL repeats; otherwise it stores nothing |
| CacheApi.ReloadRequests | pwabuilder-sw.js:35 | one GET request per manifest URL, in manifest order (also service-worker.js:30) |
| PwabuilderSw.ManifestWellFormed | pwabuilder-sw.js:2-26 | the manifest holds 23 distinct URLs, all cacheable over http(s) |
| PwabuilderSw.ManifestDistinct | pwabuilder-sw.js:2-26 | no URL repeats in the manifest |
| PwabuilderSw.ManifestHttp | pwabuilder-sw.js:2-26 | every manifest URL is relative or https |
| PwabuilderSw.Install | pwabuilder-sw.js:28-39 | install succeeds exactly when every manifest fetch delivers an ok response, and then the generation holds every manifest URL; on failure the generation is only opened; other generations are untouched |
| PwabuilderSw.HandleFetch | pwabuilder-sw.js:41-70 | a hit is served with no fetch and no write; a miss is fetched and served as received, and stored when the status is 200 or 0; a transport failure becomes a network error |
| PwabuilderSw.Activate | pwabuilder-sw.js:73-86 | every generation other than v9 is deleted, and v9 keeps its entries |
| ServiceWorker.ManifestWellFormed | service-worker.js:2-19 | the manifest holds 17 distinct URLs, all cacheable over http(s) |
| ServiceWorker.ManifestDistinct | service-worker.js:2-19 | no URL repeats in the manifest |
| ServiceWorker.ManifestHttp | service-worker.js:2-19 | every manifest URL is relative or https |
| ServiceWorker.Install | service-worker.js:23-34 | install succeeds exactly when every manifest fetch delivers an ok response, and then the generation holds every manifest URL; on failure the generation is only opened; other generations are untouched |
| ServiceWorker.HandleFetch | service-worker.js:36-67 | a hit is served with no fetch and no write; a miss is fetched and served as received, and stored unless it is not a basic 200 from the AI Studio CDN; a transport failure becomes a network error |
| ServiceWorker.ManifestOffCdn | service-worker.js:2-19 | no manifest entry lies under the AI Studio CDN prefix that the guard at service-worker.js:49 looks for, so the precached shell is never the uncached CDN case |
| ServiceWorker.ErrorStatusCachedOffCdn | service-worker.js:48-53 | off the CDN the guard never fires, so an error status is stored and served from then on |
| ServiceWorker.Activate | service-worker.js:70-83 | every generation other than v2 is deleted, and v2 keeps its entries |

## Left out

- Timers (the splash, the 500 ms logo reset, the 500 ms storage delays) are events the caller fires in order. `Date.now()` and the current date are parameters (`now`, `today`).
- JSON serialisation of local storage is not modelled, because the stored value is the list itself. The `catch` path of the initial load is left out because the simulated storage never rejects.
- `handleImageUpload` is left out, because it reads files through `FileReader`, which is I/O.
- `handleChange` is left out: it is a generic field setter, and `parseInt` of the experience field is not modelled. The rating and experience thresholds are `Option<int>`, which stands for `parseInt` of the selected option.
- `String.prototype.toLowerCase` is the parameter `lower`: Unicode case mapping is not modelled.
- Averages are exact rationals. Floating-point rounding and `toFixed(1)` are not modelled.
- Browse.PickTop: the in-place `sort` of the trade list is modelled by its observable effect only, the first element, which is the first best artisan under a stable sort. The order of the rest of the sorted array is not captured.
- `handleCardClick` and `handleShowAllForTrade` only set state for rendering. Their filter effect is covered by `Browse.TradeOnlyListsTrade`.
- App.App.ConfirmDeleteArtisan: the `onDelete` test is not modelled, because `App` always passes `handleDeleteArtisan`. The confirmation flag and `onClose` are rendering state.
- App.App.LogoTimerFires: when the reset timer fires, the source does not clear `logoClickTimeoutRef`, so a later click calls `clearTimeout` on a spent id. That is harmless and not modelled.
- Rendering is not modelled: JSX, `StarRating`, `SplashScreen`, `FilterPanel`, icons, the sidebar and scrolling.
- In `PwaFeaturesModal.tsx`, only `urlBase64ToUint8Array` is modelled. Permissions, push subscription, background sync and notifications are browser I/O.
- Cache API quota errors are not modelled, nor are `Vary` headers, URL fragments, query-string matching options or the resolution of relative URLs. A relative URL is kept as written and counts as http(s).
- The response body stream and `response.clone()` are not modelled: a response is a value, so the clone is the same value.
- Both workers' `console.log` calls are left out.
- The `cache: 'reload'` request mode is left out: it only bypasses the HTTP cache, which is not part of the model.
- PwabuilderSw.HandleFetch: the write at pwabuilder-sw.js:60-63 is started with `caches.open(...).then(cache => cache.put(...))` but is neither awaited nor passed to `event.waitUntil`. The model treats the write as finished when the handler returns. A later lookup that runs before the write lands, and a write lost when the browser stops the worker, are not modelled. `CacheApi.MatchAfterPut` rests on the same assumption.
- ServiceWorker.HandleFetch: the write at service-worker.js:57-60 is started in the same way, without `await` or `event.waitUntil`. The model treats it as finished when the handler returns. Interleaving with later lookups and a lost write are not modelled. `CacheApi.MatchAfterPut` rests on the same assumption.
