/** The card shown for each artisan in the lists (ArtisanCard.tsx): the
    first gallery picture and the average rating. The card's own copy of
    the averaging loop is `Rating.GetAverageRating`. */
module ArtisanCard {
  import opened Types
  import opened Rating

  /** The picture on the card: the first gallery picture, or the placeholder
      for an artisan without pictures. */
  function CardImage(artisan: Artisan): (src: string)
    ensures artisan.profile.gallery != [] && artisan.profile.gallery[0] != "" ==> src == artisan.profile.gallery[0]
    ensures artisan.profile.gallery == [] ==> src == DEFAULT_ARTISAN_IMAGE
    ensures src != ""
  {
    ImageAt(artisan.profile.gallery, 0)
  }

  /** What the card shows: its picture and its average. */
  method Card(artisan: Artisan) returns (src: string, averageRating: real)
    ensures src == CardImage(artisan)
    ensures averageRating == Average(artisan.reviews)
    ensures artisan.reviews == [] ==> averageRating == 0.0
    ensures (forall i :: 0 <= i < |artisan.reviews| ==> Valid(artisan.reviews[i].ratings)) && artisan.reviews != [] ==>
              1.0 <= averageRating <= 5.0
  {
    averageRating := GetAverageRating(artisan);
    if artisan.reviews != [] && forall i :: 0 <= i < |artisan.reviews| ==> Valid(artisan.reviews[i].ratings) {
      AverageBounds(artisan.reviews);
    }
    src := CardImage(artisan);
  }
}
