/** What App.tsx derives from the artisan list for display: the list
    narrowed by the search box and the four filter selectors, and the best
    artisan of every trade shown on the default view. */
module Browse {
  import opened Common
  import opened Types
  import opened Rating

  /** The filter selectors. Trade and city are `''` for "any"; the two
      thresholds are `parseInt` of the selected option, `None` for "any". */
  datatype Filters = Filters(trade: string, minExperience: Option<int>, city: string, minRating: Option<int>)

  const NO_FILTERS: Filters := Filters("", None, "", None)

  /** `isDefaultView` */
  predicate IsDefaultView(searchTerm: string, filters: Filters) {
    searchTerm == "" && filters == NO_FILTERS
  }

  /** The search term, lower-cased, occurs in the lower-cased name, location
      or one of the tags. `lower` is `String.prototype.toLowerCase`. */
  predicate MatchesSearch(a: Artisan, searchTerm: string, lower: string -> string) {
    var term := lower(searchTerm);
    searchTerm == ""
    || Includes(lower(a.profile.name), term)
    || Includes(lower(a.profile.location), term)
    || exists i :: 0 <= i < |a.profile.tags| && Includes(lower(a.profile.tags[i]), term)
  }

  /** The callback of `artisans.filter` at App.tsx:348-361. */
  predicate Matches(a: Artisan, searchTerm: string, filters: Filters, lower: string -> string) {
    && (filters.trade == "" || a.profile.trade == filters.trade)
    && (filters.minExperience.None? || a.profile.experience >= filters.minExperience.value)
    && (filters.city == "" || a.profile.city == filters.city)
    && (filters.minRating.None? || Average(a.reviews) >= filters.minRating.value as real)
    && MatchesSearch(a, searchTerm, lower)
  }

  /** `filteredArtisans`: the artisans that pass every selected filter and
      the search, in list order. */
  function FilteredArtisans(artisans: seq<Artisan>, searchTerm: string, filters: Filters, lower: string -> string): (r: seq<Artisan>)
    ensures IsSubsequence(r, artisans)
    ensures forall a :: a in r ==> a in artisans && Matches(a, searchTerm, filters, lower)
    ensures forall a :: a in artisans && Matches(a, searchTerm, filters, lower) ==> a in r
    ensures forall a :: a in r ==>
      && (filters.trade != "" ==> a.profile.trade == filters.trade)
      && (filters.city != "" ==> a.profile.city == filters.city)
      && (filters.minExperience.Some? ==> a.profile.experience >= filters.minExperience.value)
      && (filters.minRating.Some? ==> Average(a.reviews) >= filters.minRating.value as real)
  {
    var keep := (a: Artisan) => Matches(a, searchTerm, filters, lower);
    FilterSubsequence(keep, artisans);
    Filter(keep, artisans)
  }

  /** With nothing typed and nothing selected, every artisan is listed. */
  lemma DefaultViewListsAll(artisans: seq<Artisan>, searchTerm: string, filters: Filters, lower: string -> string)
    requires IsDefaultView(searchTerm, filters)
    ensures FilteredArtisans(artisans, searchTerm, filters, lower) == artisans
  {
    FilterAll((a: Artisan) => Matches(a, searchTerm, filters, lower), artisans);
  }

  /** Narrowing to one trade (the "show all" link of a trade) lists exactly
      the artisans of that trade, in order. */
  lemma TradeOnlyListsTrade(artisans: seq<Artisan>, trade: string, lower: string -> string)
    requires trade != ""
    ensures FilteredArtisans(artisans, "", Filters(trade, None, "", None), lower) ==
            Filter((a: Artisan) => a.profile.trade == trade, artisans)
  {
    FilterSame((a: Artisan) => Matches(a, "", Filters(trade, None, "", None), lower),
               (a: Artisan) => a.profile.trade == trade, artisans);
  }

  lemma {:induction false} FilterSame<T>(p: T -> bool, q: T -> bool, s: seq<T>)
    requires forall x :: x in s ==> p(x) == q(x)
    ensures Filter(p, s) == Filter(q, s)
  {
    if s != [] {
      FilterSame(p, q, s[1..]);
    }
  }

  // ---------------------------------------------------------------------
  // The best artisan of each trade

  /** The order of the comparator at App.tsx:370-377: `a` sorts before `b`
      when its average is higher, or equal with more reviews. */
  predicate Better(a: Artisan, b: Artisan) {
    Average(a.reviews) > Average(b.reviews)
    || (Average(a.reviews) == Average(b.reviews) && |a.reviews| > |b.reviews|)
  }

  /** The element a stable sort by `Better` puts first: scanning in order,
      a later candidate takes over only when it is strictly better. */
  function Top(cs: seq<Artisan>): Artisan
    requires cs != []
  {
    if |cs| == 1 then cs[0]
    else
      var best := Top(cs[..|cs| - 1]);
      if Better(cs[|cs| - 1], best) then cs[|cs| - 1] else best
  }

  /** `Better` is a strict weak order: transitive, and anything better than
      `b` is better than whatever is not better than `b`. */
  lemma BetterTransitive(a: Artisan, b: Artisan, c: Artisan)
    requires Better(a, b) && Better(b, c)
    ensures Better(a, c)
  {
  }

  lemma BetterThanNotBetter(x: Artisan, b: Artisan, c: Artisan)
    requires !Better(x, b) && Better(c, b)
    ensures Better(c, x)
  {
  }

  /** `Top` is one of the candidates, at an index before which every
      candidate is strictly worse, which is where a stable sort leaves the
      first of the best. */
  lemma {:induction false} TopIsFirst(cs: seq<Artisan>) returns (k: nat)
    requires cs != []
    ensures k < |cs| && cs[k] == Top(cs)
    ensures forall j :: 0 <= j < k ==> Better(Top(cs), cs[j])
  {
    if |cs| == 1 {
      k := 0;
    } else {
      var init := cs[..|cs| - 1];
      var last := cs[|cs| - 1];
      var best := Top(init);
      k := TopIsFirst(init);
      TopIsMaximal(init);
      if Better(last, best) {
        forall j | 0 <= j < |cs| - 1 ensures Better(last, cs[j]) {
          assert cs[j] == init[j];
          BetterThanNotBetter(init[j], best, last);
        }
        k := |cs| - 1;
      } else {
        assert cs[k] == init[k];
        forall j | 0 <= j < k ensures Better(best, cs[j]) {
          assert cs[j] == init[j];
        }
      }
    }
  }

  /** No candidate is better than `Top`. */
  lemma {:induction false} TopIsMaximal(cs: seq<Artisan>)
    requires cs != []
    ensures forall i :: 0 <= i < |cs| ==> !Better(cs[i], Top(cs))
  {
    if |cs| > 1 {
      var init := cs[..|cs| - 1];
      var last := cs[|cs| - 1];
      var best := Top(init);
      TopIsMaximal(init);
      forall i | 0 <= i < |cs| ensures !Better(cs[i], Top(cs)) {
        if i < |cs| - 1 {
          assert cs[i] == init[i];
          if Better(last, best) && Better(cs[i], last) {
            BetterTransitive(cs[i], last, best);
          }
        }
      }
    }
  }

  /** The `artisansForTrade.sort(...)[0]` step: a scan that keeps the first
      best candidate seen, asking for each candidate's average in turn. */
  method PickTop(candidates: seq<Artisan>) returns (top: Artisan)
    requires candidates != []
    ensures top == Top(candidates)
  {
    top := candidates[0];
    var topRating := GetAverageRating(top);
    assert candidates[..1] == [top];
    for i := 1 to |candidates|
      invariant top == Top(candidates[..i])
      invariant topRating == Average(top.reviews)
    {
      var c := candidates[i];
      var rating := GetAverageRating(c);
      assert candidates[..i + 1][..i] == candidates[..i];
      if rating > topRating || (rating == topRating && |c.reviews| > |top.reviews|) {
        top, topRating := c, rating;
      }
    }
    assert candidates[..|candidates|] == candidates;
  }

  /** `artisans.filter(a => a.trade === trade)` */
  function OfTrade(artisans: seq<Artisan>, trade: string): seq<Artisan> {
    Filter((a: Artisan) => a.profile.trade == trade, artisans)
  }

  /** The map `topArtisansByTrade` builds while visiting `trades` in order. */
  function TopByTrade(artisans: seq<Artisan>, trades: seq<string>): map<string, Artisan> {
    if trades == [] then map[]
    else
      var m := TopByTrade(artisans, trades[..|trades| - 1]);
      var t := trades[|trades| - 1];
      var forTrade := OfTrade(artisans, t);
      if |forTrade| > 0 then m[t := Top(forTrade)] else m
  }

  lemma TopByTradeStep(artisans: seq<Artisan>, trades: seq<string>, i: nat)
    requires i < |trades|
    ensures TopByTrade(artisans, trades[..i + 1]) ==
      var m := TopByTrade(artisans, trades[..i]);
      if |OfTrade(artisans, trades[i])| > 0 then m[trades[i] := Top(OfTrade(artisans, trades[i]))] else m
  {
    assert trades[..i + 1][..i] == trades[..i];
  }

  /** `topArtisansByTrade`: one loop over `TRADES`; each trade that has
      artisans gets the first best of them. */
  method TopArtisansByTrade(artisans: seq<Artisan>) returns (result: map<string, Artisan>)
    ensures result == TopByTrade(artisans, TRADES)
  {
    result := map[];
    for i := 0 to |TRADES|
      invariant result == TopByTrade(artisans, TRADES[..i])
    {
      var trade := TRADES[i];
      TopByTradeStep(artisans, TRADES, i);
      var artisansForTrade := OfTrade(artisans, trade);
      if |artisansForTrade| > 0 {
        var top := PickTop(artisansForTrade);
        result := result[trade := top];
      }
    }
    assert TRADES[..|TRADES|] == TRADES;
  }

  /** Some artisan practises `trade` exactly when the trade's list is not empty. */
  lemma OfTradeNonEmpty(artisans: seq<Artisan>, trade: string)
    ensures |OfTrade(artisans, trade)| > 0 <==> exists a :: a in artisans && a.profile.trade == trade
  {
    if exists a :: a in artisans && a.profile.trade == trade {
      var a :| a in artisans && a.profile.trade == trade;
      assert a in OfTrade(artisans, trade);
    }
    var r := OfTrade(artisans, trade);
    if |r| > 0 {
      assert r[0] in r;
    }
  }

  /** A trade has an entry exactly when it is listed and some artisan
      practises it; the entry is then the first best artisan of that trade. */
  lemma {:induction false} TopByTradeEntries(artisans: seq<Artisan>, trades: seq<string>, t: string)
    ensures t in TopByTrade(artisans, trades) <==> t in trades && |OfTrade(artisans, t)| > 0
    ensures t in TopByTrade(artisans, trades) ==> TopByTrade(artisans, trades)[t] == Top(OfTrade(artisans, t))
  {
    if trades != [] {
      var n := |trades| - 1;
      var init, u := trades[..n], trades[n];
      TopByTradeEntries(artisans, init, t);
      TopByTradeStep(artisans, trades, n);
      assert trades[..n + 1] == trades;
      assert t in trades <==> t in init || t == u by {
        assert trades == init + [u];
      }
    }
  }

  /** The showcase has an entry for a trade exactly when the trade is one
      of `TRADES` and some artisan practises it. */
  lemma TopByTradeKeys(artisans: seq<Artisan>, t: string)
    ensures t in TopByTrade(artisans, TRADES) <==> t in TRADES && exists a :: a in artisans && a.profile.trade == t
  {
    TopByTradeEntries(artisans, TRADES, t);
    OfTradeNonEmpty(artisans, t);
  }

  /** The promise of the trade showcase: an entry's artisan practises that
      trade, is on the list, no artisan of the trade has a higher average,
      or an equal one with more reviews, and every artisan of the trade
      listed before it is strictly worse. */
  lemma TopArtisanIsBestOfTrade(artisans: seq<Artisan>, t: string)
    requires t in TopByTrade(artisans, TRADES)
    ensures TopByTrade(artisans, TRADES)[t] in artisans
    ensures TopByTrade(artisans, TRADES)[t].profile.trade == t
    ensures forall a :: a in artisans && a.profile.trade == t ==> !Better(a, TopByTrade(artisans, TRADES)[t])
    ensures exists k :: 0 <= k < |OfTrade(artisans, t)| && OfTrade(artisans, t)[k] == TopByTrade(artisans, TRADES)[t] &&
                        forall j :: 0 <= j < k ==> Better(TopByTrade(artisans, TRADES)[t], OfTrade(artisans, t)[j])
  {
    TopByTradeEntries(artisans, TRADES, t);
    var forTrade := OfTrade(artisans, t);
    TopIsMaximal(forTrade);
    var k := TopIsFirst(forTrade);
    forall a | a in artisans && a.profile.trade == t
      ensures !Better(a, TopByTrade(artisans, TRADES)[t])
    {
      assert a in forTrade;
      var i :| 0 <= i < |forTrade| && forTrade[i] == a;
    }
  }
}
