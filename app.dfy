/** The state App.tsx keeps and the handlers that change it: the splash
    phases, the hidden administrator entrance (three quick clicks on the
    logo, then a password), the initial load, and saving, deleting and
    reviewing artisans, each of which goes through local storage and then
    updates the list on screen. */
module App {
  import opened Common
  import opened Types
  import opened Api
  import opened Browse
  import opened ArtisanForm

  datatype Phase = Splashing | Finishing | Ready

  /** `'loading' | 'success' | 'error'` */
  datatype Status = Loading | Success | Failure

  /** The phase a pending splash timer moves to: the splash animation ends,
      then the fade-out ends. In `Ready` no timer is pending. */
  function NextPhase(p: Phase): (q: Phase)
    requires p != Ready
    ensures TimersToReady(q) == TimersToReady(p) - 1
  {
    if p == Splashing then Finishing else Ready
  }

  /** How many splash timers still have to fire before the app is ready. */
  function TimersToReady(p: Phase): (n: nat)
    ensures n == 0 <==> p == Ready
  {
    match p
    case Splashing => 2
    case Finishing => 1
    case Ready => 0
  }

  /** The phase after `k` more splash timers have fired: exactly as many
      timers as `TimersToReady` counts bring the app to `Ready`, and every
      fewer number leaves it on a splash phase. */
  function AfterTimers(p: Phase, k: nat): (q: Phase)
    requires k <= TimersToReady(p)
    ensures TimersToReady(q) == TimersToReady(p) - k
    ensures q == Ready <==> k == TimersToReady(p)
    decreases k
  {
    if k == 0 then p else AfterTimers(NextPhase(p), k - 1)
  }

  /** One logo click, from the count on screen: the new count, and whether
      this click opens the login. */
  function LogoClick(count: int): (int, bool) {
    if count + 1 == 3 then (0, true) else (count + 1, false)
  }

  /** `n` clicks in a row, none of them late enough for the reset timer to
      fire: the final count and how many times the login opened. */
  function Clicks(count: int, n: nat): (int, nat)
    decreases n
  {
    if n == 0 then (count, 0)
    else
      var (c, opens) := LogoClick(count);
      var (final, more) := Clicks(c, n - 1);
      (final, more + if opens then 1 else 0)
  }

  /** From a fresh counter, every third quick click opens the login: after
      `n` clicks the count is `n % 3` and the login has opened `n / 3` times. */
  lemma {:induction false} QuickClicks(n: nat)
    ensures Clicks(0, n) == (n % 3, n / 3)
  {
    if n >= 3 {
      QuickClicks(n - 3);
      ClicksSplit(0, 3, n - 3);
    }
  }

  lemma {:induction false} ClicksSplit(count: int, m: nat, n: nat)
    decreases m
    ensures Clicks(count, m + n) ==
      var (c, o1) := Clicks(count, m);
      var (final, o2) := Clicks(c, n);
      (final, o1 + o2)
  {
    if m > 0 {
      var (c, opens) := LogoClick(count);
      ClicksSplit(c, m - 1, n);
    }
  }

  const CORRECT_PASSWORD: string := "أنا لؤي"
  const WRONG_PASSWORD: string := "كلمة المرور غير صحيحة."

  /** The password dialog. */
  class AdminLoginModal {
    var password: string
    var error: string

    constructor ()
      ensures password == "" && error == ""
    {
      password := "";
      error := "";
    }

    /** Submitting succeeds exactly when the password is right; otherwise
        the dialog shows the error and stays open. */
    method HandleSubmit() returns (success: bool)
      modifies this`error
      ensures success <==> password == CORRECT_PASSWORD
      ensures error == if success then old(error) else WRONG_PASSWORD
    {
      if password == CORRECT_PASSWORD {
        success := true;
      } else {
        error := WRONG_PASSWORD;
        success := false;
      }
    }
  }

  /** The first artisan carrying `artisanId`, as `Array.prototype.find` returns it. */
  function FindById(artisans: seq<Artisan>, artisanId: string): (r: Option<Artisan>)
    ensures r.None? <==> forall a :: a in artisans ==> a.id != artisanId
    ensures r.Some? ==> r.value in artisans && r.value.id == artisanId
  {
    if artisans == [] then None
    else if artisans[0].id == artisanId then Some(artisans[0])
    else FindById(artisans[1..], artisanId)
  }

  /** What `find` returns is the first match: no artisan before it carries the id. */
  lemma {:induction false} FindByIdFirst(artisans: seq<Artisan>, artisanId: string) returns (k: nat)
    requires FindById(artisans, artisanId).Some?
    ensures k < |artisans| && artisans[k] == FindById(artisans, artisanId).value
    ensures forall j :: 0 <= j < k ==> artisans[j].id != artisanId
  {
    if artisans[0].id == artisanId {
      k := 0;
    } else {
      var k' := FindByIdFirst(artisans[1..], artisanId);
      k := k' + 1;
      forall j | 0 <= j < k ensures artisans[j].id != artisanId {
        if j > 0 { assert artisans[j] == artisans[1..][j - 1]; }
      }
    }
  }

  /** After a review is added, looking the artisan up again finds the same
      record with the review appended: the open profile shows it. */
  lemma {:induction false} FindAfterReview(artisans: seq<Artisan>, artisanId: string, review: Review)
    ensures FindById(WithReview(artisans, artisanId, review), artisanId) ==
      match FindById(artisans, artisanId)
      case None => None
      case Some(a) => Some(a.(reviews := a.reviews + [review]))
  {
    if artisans != [] && artisans[0].id != artisanId {
      FindAfterReview(artisans[1..], artisanId, review);
      assert WithReview(artisans, artisanId, review)[1..] == WithReview(artisans[1..], artisanId, review);
    }
  }

  /** The state of the App component. */
  class App {
    var appState: Phase
    var status: Status
    var artisans: seq<Artisan>
    var selectedArtisan: Option<Artisan>
    var searchTerm: string
    var filters: Filters
    var showAdminLogin: bool
    var isAdmin: bool
    var logoClickCount: int
    /** Whether a logo reset timer is pending (`logoClickTimeoutRef`). */
    var logoTimerArmed: bool

    /** The logo count never exceeds 2, and a positive count always has a
        reset pending. */
    ghost predicate Valid()
      reads this
    {
      0 <= logoClickCount <= 2 && (logoClickCount > 0 ==> logoTimerArmed)
    }

    constructor ()
      ensures Valid()
      ensures appState == Splashing && status == Loading && artisans == [] && selectedArtisan == None
      ensures searchTerm == "" && IsDefaultView(searchTerm, filters)
      ensures !showAdminLogin && !isAdmin && logoClickCount == 0 && !logoTimerArmed
    {
      appState := Splashing;
      status := Loading;
      artisans := [];
      selectedArtisan := None;
      searchTerm := "";
      filters := NO_FILTERS;
      showAdminLogin := false;
      isAdmin := false;
      logoClickCount := 0;
      logoTimerArmed := false;
    }

    /** The splash effect's pending timer fires. */
    method SplashTimerFires()
      requires appState != Ready
      modifies this`appState
      ensures appState == NextPhase(old(appState))
      ensures TimersToReady(appState) < TimersToReady(old(appState))
    {
      if appState == Splashing {
        appState := Finishing;
      } else if appState == Finishing {
        appState := Ready;
      }
    }

    /** The mount effect: the list is whatever storage holds. */
    method Load(storage: LocalStorage)
      modifies this`status, this`artisans
      ensures status == Success && artisans == storage.Contents()
    {
      status := Loading;
      var data := storage.FetchArtisans();
      artisans := data;
      status := Success;
    }

    /** `handleLogoClick`: any pending reset is cancelled; the third click
        opens the login and zeroes the count, any other click counts and
        arms a new reset. */
    method HandleLogoClick()
      requires Valid()
      modifies this`logoClickCount, this`logoTimerArmed, this`showAdminLogin
      ensures Valid()
      ensures logoClickCount == LogoClick(old(logoClickCount)).0
      ensures showAdminLogin == (old(showAdminLogin) || LogoClick(old(logoClickCount)).1)
      ensures old(logoClickCount) == 2 ==> showAdminLogin && logoClickCount == 0 && !logoTimerArmed
      ensures old(logoClickCount) < 2 ==>
        logoClickCount == old(logoClickCount) + 1 && logoTimerArmed && showAdminLogin == old(showAdminLogin)
    {
      logoTimerArmed := false;
      var newCount := logoClickCount + 1;
      logoClickCount := newCount;
      if newCount == 3 {
        showAdminLogin := true;
        logoClickCount := 0;
      } else {
        logoTimerArmed := true;
      }
    }

    /** The pending logo reset fires. */
    method LogoTimerFires()
      requires Valid() && logoTimerArmed
      modifies this`logoClickCount, this`logoTimerArmed
      ensures Valid() && logoClickCount == 0 && !logoTimerArmed
    {
      logoClickCount := 0;
      logoTimerArmed := false;
    }

    /** The login dialog's `onSuccess`. */
    method LoginSucceeded()
      modifies this`isAdmin, this`showAdminLogin
      ensures isAdmin && !showAdminLogin
    {
      isAdmin := true;
      showAdminLogin := false;
    }

    /** `handleSaveArtisan`: an edited artisan replaces its stored and shown
        copies; a new one is appended to both. A list that matched storage
        still matches it. */
    method HandleSaveArtisan(artisanData: FormData, storage: LocalStorage, now: nat)
      modifies this`artisans, storage
      ensures artisanData.Existing? ==>
        storage.stored == Some(ReplaceById(old(storage.Contents()), artisanData.artisan)) &&
        artisans == ReplaceById(old(artisans), artisanData.artisan)
      ensures artisanData.Fresh? ==>
        storage.stored == Some(old(storage.Contents()) + [NewArtisan(artisanData.data, now)]) &&
        artisans == old(artisans) + [NewArtisan(artisanData.data, now)]
      ensures old(artisans) == old(storage.Contents()) ==> artisans == storage.Contents()
    {
      if artisanData.Existing? {
        var updatedArtisan := storage.UpdateArtisan(artisanData.artisan);
        artisans := ReplaceById(artisans, updatedArtisan);
      } else {
        var newArtisan := storage.AddArtisan(artisanData.data, now);
        artisans := artisans + [newArtisan];
      }
    }

    /** `handleDeleteArtisan`: the artisan leaves storage and the screen. */
    method HandleDeleteArtisan(artisanId: string, storage: LocalStorage)
      modifies this`artisans, storage
      ensures storage.stored == Some(RemoveById(old(storage.Contents()), artisanId))
      ensures artisans == RemoveById(old(artisans), artisanId)
      ensures old(artisans) == old(storage.Contents()) ==> artisans == storage.Contents()
    {
      storage.DeleteArtisan(artisanId);
      artisans := RemoveById(artisans, artisanId);
    }

    /** Confirming the delete in the form, which calls `handleDeleteArtisan`
        as its `onDelete`: in edit mode the edited artisan leaves storage and
        the screen while every other artisan stays, in order; in add mode
        nothing changes. */
    method ConfirmDeleteArtisan(form: ArtisanFormModal, storage: LocalStorage)
      modifies this`artisans, storage
      ensures form.artisanToEdit.None? ==> artisans == old(artisans) && storage.stored == old(storage.stored)
      ensures form.artisanToEdit.Some? ==>
        var id := form.artisanToEdit.value.id;
        && storage.stored == Some(RemoveById(old(storage.Contents()), id))
        && artisans == RemoveById(old(artisans), id)
        && (forall a :: a in artisans ==> a.id != id)
        && (forall a :: a in old(artisans) && a.id != id ==> a in artisans)
        && IsSubsequence(artisans, old(artisans))
    {
      var deleted := form.HandleConfirmDelete();
      if deleted.Some? {
        HandleDeleteArtisan(deleted.value, storage);
      }
    }

    /** `handleAddReview`: the review is stored, the list is reloaded from
        storage, and an open profile of that artisan is refreshed. */
    method HandleAddReview(artisanId: string, reviewData: ReviewDraft, storage: LocalStorage, now: nat, today: string)
      modifies this`artisans, this`selectedArtisan, storage
      ensures storage.stored == Some(WithReview(old(storage.Contents()), artisanId, NewReview(reviewData, now, today)))
      ensures artisans == storage.Contents()
      ensures selectedArtisan ==
        if old(selectedArtisan).Some? && old(selectedArtisan).value.id == artisanId
        then FindById(artisans, artisanId)
        else old(selectedArtisan)
    {
      var _ := storage.AddReview(artisanId, reviewData, now, today);
      var updatedArtisans := storage.FetchArtisans();
      artisans := updatedArtisans;
      if selectedArtisan.Some? && selectedArtisan.value.id == artisanId {
        selectedArtisan := FindById(updatedArtisans, artisanId);
      }
    }
  }
}
