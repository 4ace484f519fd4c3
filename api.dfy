/** The simulated back end of App.tsx: the list of artisans lives in the
    browser's local storage under the key `artisans`, and each operation
    reads the whole list, changes it and writes it back. */
module Api {
  import opened Common
  import opened Types

  /** `artisans.map(a => a.id === updated.id ? updated : a)` */
  function ReplaceById(artisans: seq<Artisan>, updated: Artisan): (r: seq<Artisan>)
    ensures |r| == |artisans|
    ensures forall i :: 0 <= i < |r| && artisans[i].id == updated.id ==> r[i] == updated
    ensures forall i :: 0 <= i < |r| && artisans[i].id != updated.id ==> r[i] == artisans[i]
  {
    if artisans == [] then []
    else [if artisans[0].id == updated.id then updated else artisans[0]] + ReplaceById(artisans[1..], updated)
  }

  /** `artisans.filter(a => a.id !== artisanId)` */
  function RemoveById(artisans: seq<Artisan>, artisanId: string): (r: seq<Artisan>)
    ensures forall a :: a in r ==> a.id != artisanId
    ensures forall a :: a in artisans && a.id != artisanId ==> a in r
    ensures IsSubsequence(r, artisans)
  {
    var keep := (a: Artisan) => a.id != artisanId;
    FilterSubsequence(keep, artisans);
    Filter(keep, artisans)
  }

  /** `artisans.map(a => a.id === artisanId ? { ...a, reviews: [...a.reviews, review] } : a)` */
  function WithReview(artisans: seq<Artisan>, artisanId: string, review: Review): (r: seq<Artisan>)
    ensures |r| == |artisans|
    ensures forall i :: 0 <= i < |r| && artisans[i].id == artisanId ==>
      r[i] == artisans[i].(reviews := artisans[i].reviews + [review])
    ensures forall i :: 0 <= i < |r| && artisans[i].id != artisanId ==> r[i] == artisans[i]
  {
    if artisans == [] then []
    else
      var a := artisans[0];
      [if a.id == artisanId then a.(reviews := a.reviews + [review]) else a] + WithReview(artisans[1..], artisanId, review)
  }

  /** `artisan-${Date.now()}` */
  function ArtisanId(now: nat): string {
    "artisan-" + Decimal(now)
  }

  /** `r${Date.now()}` */
  function ReviewId(now: nat): string {
    "r" + Decimal(now)
  }

  /** The record `addArtisan` stores: the submitted fields, a fresh id and
      no reviews. */
  function NewArtisan(data: Profile, now: nat): Artisan {
    Artisan(ArtisanId(now), data, [])
  }

  /** The record `addReview` stores: the submitted review with an id and a date. */
  function NewReview(data: ReviewDraft, now: nat, today: string): Review {
    Review(ReviewId(now), data.author, data.ratings, data.comment, today)
  }

  /** The local-storage entry `artisans`; `None` until the first write. */
  class LocalStorage {
    var stored: Option<seq<Artisan>>

    constructor ()
      ensures stored == None
    {
      stored := None;
    }

    /** The list `fetchArtisans` resolves to: the stored list, or `[]` when
        nothing has been stored yet. */
    function Contents(): seq<Artisan>
      reads this
    {
      if stored.Some? then stored.value else []
    }

    method FetchArtisans() returns (artisans: seq<Artisan>)
      ensures artisans == Contents()
    {
      if stored.Some? {
        artisans := stored.value;
      } else {
        artisans := [];
      }
    }

    /** Appends a new artisan built from the form's fields at the end. */
    method AddArtisan(newArtisanData: Profile, now: nat) returns (newArtisan: Artisan)
      modifies this
      ensures newArtisan == NewArtisan(newArtisanData, now)
      ensures stored == Some(old(Contents()) + [newArtisan])
    {
      var artisans := FetchArtisans();
      newArtisan := Artisan(ArtisanId(now), newArtisanData, []);
      stored := Some(artisans + [newArtisan]);
    }

    /** Replaces every stored artisan carrying the update's id. */
    method UpdateArtisan(updatedArtisan: Artisan) returns (result: Artisan)
      modifies this
      ensures result == updatedArtisan
      ensures stored == Some(ReplaceById(old(Contents()), updatedArtisan))
    {
      var artisans := FetchArtisans();
      stored := Some(ReplaceById(artisans, updatedArtisan));
      result := updatedArtisan;
    }

    /** Drops every stored artisan carrying the id. */
    method DeleteArtisan(artisanId: string)
      modifies this
      ensures stored == Some(RemoveById(old(Contents()), artisanId))
    {
      var artisans := FetchArtisans();
      stored := Some(RemoveById(artisans, artisanId));
    }

    /** Appends a review to every stored artisan carrying the id. */
    method AddReview(artisanId: string, reviewData: ReviewDraft, now: nat, today: string) returns (newReview: Review)
      modifies this
      ensures newReview == NewReview(reviewData, now, today)
      ensures stored == Some(WithReview(old(Contents()), artisanId, newReview))
    {
      var artisans := FetchArtisans();
      newReview := Review(ReviewId(now), reviewData.author, reviewData.ratings, reviewData.comment, today);
      stored := Some(WithReview(artisans, artisanId, newReview));
    }
  }

  /** The ids of the list, in order. */
  function Ids(artisans: seq<Artisan>): seq<string> {
    seq(|artisans|, i requires 0 <= i < |artisans| => artisans[i].id)
  }

  /** An update never adds, removes or reorders ids. */
  lemma ReplaceKeepsIds(artisans: seq<Artisan>, updated: Artisan)
    ensures Ids(ReplaceById(artisans, updated)) == Ids(artisans)
  {
  }

  /** Adding a review never adds, removes or reorders artisans. */
  lemma WithReviewKeepsIds(artisans: seq<Artisan>, artisanId: string, review: Review)
    ensures Ids(WithReview(artisans, artisanId, review)) == Ids(artisans)
  {
  }

  /** A review for an id nobody carries changes nothing. */
  lemma WithReviewUnknownId(artisans: seq<Artisan>, artisanId: string, review: Review)
    requires artisanId !in Ids(artisans)
    ensures WithReview(artisans, artisanId, review) == artisans
  {
    var r := WithReview(artisans, artisanId, review);
    forall i | 0 <= i < |artisans| ensures r[i] == artisans[i] {
      assert Ids(artisans)[i] == artisans[i].id;
    }
  }

  /** Removing an id leaves no artisan with that id, and removing it again
      changes nothing. */
  lemma RemoveIdempotent(artisans: seq<Artisan>, artisanId: string)
    ensures RemoveById(RemoveById(artisans, artisanId), artisanId) == RemoveById(artisans, artisanId)
  {
    FilterAll((a: Artisan) => a.id != artisanId, RemoveById(artisans, artisanId));
  }

  /** Replacing with the same record twice is the same as once. */
  lemma ReplaceIdempotent(artisans: seq<Artisan>, updated: Artisan)
    ensures ReplaceById(ReplaceById(artisans, updated), updated) == ReplaceById(artisans, updated)
  {
  }

  /** Artisans added at different times get different ids. */
  lemma ArtisanIdsDistinct(t1: nat, t2: nat)
    requires t1 != t2
    ensures ArtisanId(t1) != ArtisanId(t2)
  {
    if ArtisanId(t1) == ArtisanId(t2) {
      var p := "artisan-";
      assert ArtisanId(t1)[|p|..] == Decimal(t1);
      assert ArtisanId(t2)[|p|..] == Decimal(t2);
      DecimalInjective(t1, t2);
    }
  }
}
