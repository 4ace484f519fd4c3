/** The artisan profile dialog (ArtisanProfileModal.tsx): a gallery that
    steps through the pictures in a circle, the per-review averages, and
    the review form, which only submits a review whose fields are all
    filled and whose four criteria all have a star. */
module ArtisanProfile {
  import opened Common
  import opened Types
  import opened Rating

  // ---------------------------------------------------------------------
  // The gallery

  /** `(i + 1) % n`: the next picture, wrapping from the last to the first.
      Both operands are non-negative, so JavaScript's `%` agrees with
      Dafny's here. */
  function NextIndex(i: int, n: int): (j: int)
    requires 0 <= i < n
    ensures 0 <= j < n
    ensures j == if i == n - 1 then 0 else i + 1
  {
    (i + 1) % n
  }

  /** `(i - 1 + n) % n`: the previous picture, wrapping from the first to
      the last. */
  function PrevIndex(i: int, n: int): (j: int)
    requires 0 <= i < n
    ensures 0 <= j < n
    ensures j == if i == 0 then n - 1 else i - 1
  {
    (i - 1 + n) % n
  }

  /** Back after forward, and forward after back, return to the same picture. */
  lemma PrevNext(i: int, n: int)
    requires 0 <= i < n
    ensures PrevIndex(NextIndex(i, n), n) == i
    ensures NextIndex(PrevIndex(i, n), n) == i
  {
  }

  /** The picture reached after `k` presses of the forward button. */
  function NextTimes(i: int, n: int, k: nat): (j: int)
    requires 0 <= i < n
    ensures 0 <= j < n
    decreases k
  {
    if k == 0 then i else NextIndex(NextTimes(i, n, k - 1), n)
  }

  /** Up to `n` forward presses move `k` pictures round the circle,
      wrapping past the last picture at most once. */
  lemma {:induction false} NextTimesShift(i: int, n: int, k: nat)
    requires 0 <= i < n && k <= n
    ensures NextTimes(i, n, k) == if i + k < n then i + k else i + k - n
    decreases k
  {
    if k > 0 {
      NextTimesShift(i, n, k - 1);
    }
  }

  /** `n` forward presses come back to the starting picture. */
  lemma FullCircle(i: int, n: int)
    requires 0 <= i < n
    ensures NextTimes(i, n, n) == i
  {
    NextTimesShift(i, n, n);
  }

  /** The dialog's gallery state: the artisan shown, if any, and the index
      of the picture on screen. */
  class GalleryView {
    var artisan: Option<Artisan>
    var currentImageIndex: int

    /** The index is 0 or points into the shown artisan's gallery. */
    ghost predicate Valid()
      reads this
    {
      currentImageIndex == 0 ||
      (artisan.Some? && 0 <= currentImageIndex < |artisan.value.profile.gallery|)
    }

    constructor (artisan: Option<Artisan>)
      ensures Valid() && this.artisan == artisan && currentImageIndex == 0
    {
      this.artisan := artisan;
      currentImageIndex := 0;
    }

    /** A different artisan is shown: the reset effect puts the index back
        at the first picture. */
    method SetArtisan(a: Option<Artisan>)
      modifies this
      ensures Valid() && artisan == a && currentImageIndex == 0
    {
      artisan := a;
      currentImageIndex := 0;
    }

    /** Whether the previous and next buttons are on screen. */
    function HasArrows(): (b: bool)
      reads this
      ensures b <==> artisan.Some? && |artisan.value.profile.gallery| > 1
    {
      artisan.Some? && |artisan.value.profile.gallery| > 1
    }

    /** The picture on screen: the slot at the index, or the placeholder. */
    function Shown(): (src: string)
      reads this
      requires artisan.Some?
      ensures Valid() && artisan.value.profile.gallery != [] && artisan.value.profile.gallery[currentImageIndex] != "" ==>
                src == artisan.value.profile.gallery[currentImageIndex]
      ensures artisan.value.profile.gallery == [] ==> src == DEFAULT_ARTISAN_IMAGE
    {
      ImageAt(artisan.value.profile.gallery, currentImageIndex)
    }

    /** `nextImage`, pressed on the forward arrow; without an artisan it
        does nothing. */
    method NextImage()
      requires Valid() && (artisan.Some? ==> HasArrows())
      modifies this`currentImageIndex
      ensures Valid()
      ensures artisan.None? ==> currentImageIndex == old(currentImageIndex)
      ensures artisan.Some? ==>
        currentImageIndex == NextIndex(old(currentImageIndex), |artisan.value.profile.gallery|)
    {
      if artisan.None? {
        return;
      }
      currentImageIndex := (currentImageIndex + 1) % |artisan.value.profile.gallery|;
    }

    /** `prevImage`, pressed on the back arrow. */
    method PrevImage()
      requires Valid() && (artisan.Some? ==> HasArrows())
      modifies this`currentImageIndex
      ensures Valid()
      ensures artisan.None? ==> currentImageIndex == old(currentImageIndex)
      ensures artisan.Some? ==>
        currentImageIndex == PrevIndex(old(currentImageIndex), |artisan.value.profile.gallery|)
    {
      if artisan.None? {
        return;
      }
      var n := |artisan.value.profile.gallery|;
      currentImageIndex := (currentImageIndex - 1 + n) % n;
    }
  }

  // ---------------------------------------------------------------------
  // The review form

  datatype Criterion = Quality | Punctuality | Price | Communication

  /** The ratings with one criterion set, as `handleRatingChange` spreads them. */
  function WithRating(r: Ratings, c: Criterion, value: int): (s: Ratings)
    ensures c == Quality ==> s == r.(quality := value)
    ensures c == Punctuality ==> s == r.(punctuality := value)
    ensures c == Price ==> s == r.(price := value)
    ensures c == Communication ==> s == r.(communication := value)
  {
    match c
    case Quality => r.(quality := value)
    case Punctuality => r.(punctuality := value)
    case Price => r.(price := value)
    case Communication => r.(communication := value)
  }

  const NO_RATINGS: Ratings := Ratings(0, 0, 0, 0)

  const REVIEW_ERROR: string := "الرجاء تعبئة جميع الحقول وتقديم تقييم لجميع المعايير."

  /** Each criterion is unset (0) or a number of stars. */
  predicate StarsOrUnset(r: Ratings) {
    0 <= r.quality <= 5 && 0 <= r.punctuality <= 5 && 0 <= r.price <= 5 && 0 <= r.communication <= 5
  }

  /** The guard of `handleAddReview`: a name or comment is missing or a
      criterion has no star yet. */
  predicate Incomplete(author: string, r: Ratings, comment: string) {
    author == "" || comment == "" ||
    r.quality == 0 || r.punctuality == 0 || r.price == 0 || r.communication == 0
  }

  /** A review that passes the guard has every criterion in 1..5, so it
      keeps the artisan's average within 1..5. */
  lemma CompleteIsValid(author: string, r: Ratings, comment: string)
    requires StarsOrUnset(r) && !Incomplete(author, r, comment)
    ensures Valid(r) && author != "" && comment != ""
  {
  }

  class ReviewForm {
    const artisanId: string
    var newReviewer: string
    var newRatings: Ratings
    var newComment: string
    var error: string

    ghost predicate Valid()
      reads this
    {
      StarsOrUnset(newRatings)
    }

    constructor (artisanId: string)
      ensures Valid() && this.artisanId == artisanId
      ensures newReviewer == "" && newRatings == NO_RATINGS && newComment == "" && error == ""
    {
      this.artisanId := artisanId;
      newReviewer := "";
      newRatings := NO_RATINGS;
      newComment := "";
      error := "";
    }

    /** `handleRatingChange`: a star widget reports 1..5 stars. */
    method HandleRatingChange(criterion: Criterion, value: int)
      requires Valid() && 1 <= value <= 5
      modifies this`newRatings
      ensures Valid() && newRatings == WithRating(old(newRatings), criterion, value)
    {
      newRatings := WithRating(newRatings, criterion, value);
    }

    /** `handleAddReview`: an incomplete review shows the error, keeps what
        was typed and submits nothing; a complete one is handed to
        `onAddReview` for this artisan exactly as typed, and the form is
        cleared. */
    method HandleAddReview() returns (submitted: Option<(string, ReviewDraft)>)
      requires Valid()
      modifies this`newReviewer, this`newRatings, this`newComment, this`error
      ensures Valid()
      ensures submitted.None? <==> Incomplete(old(newReviewer), old(newRatings), old(newComment))
      ensures submitted.None? ==>
        error == REVIEW_ERROR && newReviewer == old(newReviewer) &&
        newRatings == old(newRatings) && newComment == old(newComment)
      ensures submitted.Some? ==>
        submitted.value == (artisanId, ReviewDraft(old(newReviewer), old(newRatings), old(newComment))) &&
        Rating.Valid(submitted.value.1.ratings) &&
        error == "" && newReviewer == "" && newRatings == NO_RATINGS && newComment == ""
    {
      var r := newRatings;
      if newReviewer == "" || newComment == "" || r.quality == 0 || r.punctuality == 0 || r.price == 0 || r.communication == 0 {
        error := REVIEW_ERROR;
        return None;
      }
      CompleteIsValid(newReviewer, newRatings, newComment);
      error := "";
      submitted := Some((artisanId, ReviewDraft(newReviewer, newRatings, newComment)));
      newReviewer := "";
      newRatings := NO_RATINGS;
      newComment := "";
    }
  }
}
