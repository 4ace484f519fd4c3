/** Average ratings. The front-end computes an artisan's average in three
    places with the same loop: every criterion of every review counts once,
    so the average is the grand total over four times the number of
    reviews, and 0 for an artisan nobody has reviewed yet. Averages are
    exact rationals here. */
module Rating {
  import opened Types

  /** The four criteria of one review added up. */
  function Sum(r: Ratings): int {
    r.quality + r.punctuality + r.price + r.communication
  }

  /** Every criterion a star widget can produce lies in 1..5. */
  predicate Valid(r: Ratings) {
    1 <= r.quality <= 5 && 1 <= r.punctuality <= 5 && 1 <= r.price <= 5 && 1 <= r.communication <= 5
  }

  /** The running total after visiting `reviews` in order. */
  function Total(reviews: seq<Review>): int {
    if reviews == [] then 0
    else Total(reviews[..|reviews| - 1]) + Sum(reviews[|reviews| - 1].ratings)
  }

  /** An artisan's average rating: 0 with no reviews, otherwise the total
      of all criteria over all reviews divided by four per review. */
  function Average(reviews: seq<Review>): real {
    if reviews == [] then 0.0 else Total(reviews) as real / (4 * |reviews|) as real
  }

  /** `getReviewAverageRating`: the mean of one review's four criteria. */
  function ReviewAverage(r: Review): (avg: real)
    ensures Valid(r.ratings) ==> 1.0 <= avg <= 5.0
    ensures 4.0 * avg == Sum(r.ratings) as real
  {
    Sum(r.ratings) as real / 4.0
  }

  /** `getAverageRating` (App.tsx), `getAverageRating` (ArtisanCard.tsx) and
      `getArtisanAverageRating` (ArtisanProfileModal.tsx): one loop that
      accumulates the total and counts four per review. The division is
      taken with a positive divisor, `count == 4 * |reviews|`. */
  method GetAverageRating(artisan: Artisan) returns (avg: real)
    ensures avg == Average(artisan.reviews)
    ensures artisan.reviews == [] ==> avg == 0.0
  {
    var reviews := artisan.reviews;
    if |reviews| == 0 {
      return 0.0;
    }
    var total := 0;
    var count := 0;
    for i := 0 to |reviews|
      invariant total == Total(reviews[..i])
      invariant count == 4 * i
    {
      var r := reviews[i].ratings;
      total := total + r.quality + r.punctuality + r.price + r.communication;
      count := count + 4;
      assert reviews[..i + 1][..i] == reviews[..i];
    }
    assert reviews[..|reviews|] == reviews;
    avg := if count > 0 then total as real / count as real else 0.0;
  }

  /** A review appended at the end adds its own criteria to the total. */
  lemma TotalAppend(reviews: seq<Review>, r: Review)
    ensures Total(reviews + [r]) == Total(reviews) + Sum(r.ratings)
  {
    assert (reviews + [r])[..|reviews|] == reviews;
  }

  /** With every criterion in 1..5 the total lies between 4 and 20 per review. */
  lemma {:induction false} TotalBounds(reviews: seq<Review>)
    requires forall i :: 0 <= i < |reviews| ==> Valid(reviews[i].ratings)
    ensures 4 * |reviews| <= Total(reviews) <= 20 * |reviews|
  {
    if reviews != [] {
      TotalBounds(reviews[..|reviews| - 1]);
    }
  }

  /** With every criterion in 1..5, a reviewed artisan's average lies in [1, 5]. */
  lemma AverageBounds(reviews: seq<Review>)
    requires reviews != []
    requires forall i :: 0 <= i < |reviews| ==> Valid(reviews[i].ratings)
    ensures 1.0 <= Average(reviews) <= 5.0
  {
    TotalBounds(reviews);
    var n := (4 * |reviews|) as real;
    QuotientBounds(Total(reviews) as real, n);
  }

  lemma QuotientBounds(t: real, n: real)
    requires 0.0 < n <= t <= 5.0 * n
    ensures 1.0 <= t / n <= 5.0
  {
    var q := t / n;
    assert (q - 1.0) * n == t - n;
    assert (5.0 - q) * n == 5.0 * n - t;
    NonNegativeFactor(q - 1.0, n);
    NonNegativeFactor(5.0 - q, n);
  }

  lemma NonNegativeFactor(x: real, n: real)
    requires 0.0 < n && 0.0 <= x * n
    ensures 0.0 <= x
  {
  }

  /** The per-review averages summed in list order. */
  function ReviewAverageSum(reviews: seq<Review>): real {
    if reviews == [] then 0.0
    else ReviewAverageSum(reviews[..|reviews| - 1]) + ReviewAverage(reviews[|reviews| - 1])
  }

  lemma {:induction false} ReviewAverageSumTotal(reviews: seq<Review>)
    ensures 4.0 * ReviewAverageSum(reviews) == Total(reviews) as real
  {
    if reviews != [] {
      ReviewAverageSumTotal(reviews[..|reviews| - 1]);
    }
  }

  /** Because every review has exactly four criteria, the artisan's average
      is also the mean of the per-review averages shown next to each review. */
  lemma AverageIsMeanOfReviewAverages(reviews: seq<Review>)
    requires reviews != []
    ensures Average(reviews) == ReviewAverageSum(reviews) / |reviews| as real
  {
    ReviewAverageSumTotal(reviews);
  }
}
