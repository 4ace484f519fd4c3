/** The marketplace records (`types.ts`) and the fixed lists the front-end
    offers (`constants.ts`). The form's `Omit<Artisan, 'id' | 'reviews'>`
    is its own record, `Profile`, so that an artisan is an id, a profile
    and a list of reviews. */
module Types {

  /** The four criteria of a review, each entered on a 1..5 star widget
      (0 until a star is picked). */
  datatype Ratings = Ratings(quality: int, punctuality: int, price: int, communication: int)

  /** `Omit<Review, 'id' | 'date'>`: what the review form submits. */
  datatype ReviewDraft = ReviewDraft(author: string, ratings: Ratings, comment: string)

  datatype Review = Review(id: string, author: string, ratings: Ratings, comment: string, date: string)

  /** `Omit<Artisan, 'id' | 'reviews'>`: everything an administrator edits. */
  datatype Profile = Profile(
    name: string,
    trade: string,
    experience: int,
    bio: string,
    services: seq<string>,
    city: string,
    phone: string,
    location: string,
    gallery: seq<string>,
    tags: seq<string>)

  datatype Artisan = Artisan(id: string, profile: Profile, reviews: seq<Review>)

  /** `Artisan | Omit<Artisan, 'id' | 'reviews'>`: what the artisan form
      edits and saves. An artisan opened for editing keeps its id and
      reviews (`'id' in artisanData`); a new one has only a profile. */
  datatype FormData = Existing(artisan: Artisan) | Fresh(data: Profile) {
    function Fields(): Profile {
      if Existing? then artisan.profile else data
    }

    /** The same form with its fields replaced; an existing artisan keeps
        its id and its reviews. */
    function WithProfile(p: Profile): (f: FormData)
      ensures f.Fields() == p && f.Existing? == Existing?
      ensures Existing? ==> f.artisan.id == artisan.id && f.artisan.reviews == artisan.reviews
    {
      if Existing? then Existing(artisan.(profile := p)) else Fresh(p)
    }
  }

  const TRADES: seq<string> := ["كهربائي", "نجّار", "سبّاك", "دهّان", "بنّاء", "مبلّط", "طيّان", "حدّاد"]

  const CITIES: seq<string> := [
    "دمشق", "ريف دمشق", "حلب", "حمص", "حماة", "اللاذقية", "طرطوس",
    "دير الزور", "الحسكة", "الرقة", "إدلب", "درعا", "السويداء", "القنيطرة"]

  /** A transparent 1x1 PNG shown where an artisan has no picture. */
  const DEFAULT_ARTISAN_IMAGE: string :=
    "data:image/png;base64,iVBORw0KGgoAAAANSUhEUgAAAAEAAAABCAQAAAC1HAwCAAAAC0lEQVR42mNkYAAAAAYAAjCB0C8AAAAASUVORK5CYII="

  /** `gallery[index] || DEFAULT_ARTISAN_IMAGE_BASE64`: the picture in that
      slot, or the placeholder when the slot is missing or holds the empty
      string (which JavaScript treats as false). */
  function ImageAt(gallery: seq<string>, index: int): (src: string)
    ensures src != ""
    ensures src == DEFAULT_ARTISAN_IMAGE || (0 <= index < |gallery| && src == gallery[index])
    ensures 0 <= index < |gallery| && gallery[index] != "" ==> src == gallery[index]
    ensures !(0 <= index < |gallery|) ==> src == DEFAULT_ARTISAN_IMAGE
  {
    if 0 <= index < |gallery| && gallery[index] != "" then gallery[index] else DEFAULT_ARTISAN_IMAGE
  }

  /** The record the add form starts from. */
  const INITIAL_PROFILE: Profile :=
    Profile("", TRADES[0], 5, "", [], CITIES[0], "", "", [], [])
}
