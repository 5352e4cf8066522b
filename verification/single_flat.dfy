/** The details page of one listing: the image list and the gallery it
    feeds, the amenity icons, the status badge and the contact gate. */
module SingleFlat {
  import opened Values
  import opened Text
  import opened Listings
  import opened Login
  import FlatCard

  /** `flat?.image ? [flat.image] : []` followed by `flat.additionalImages`. */
  function ImageList(flat: Option<Listing>): (r: seq<string>)
    ensures flat.None? ==> r == []
    ensures flat.Some? ==>
      |r| == (if Present(flat.value.image) then 1 else 0) + |flat.value.additionalImages.GetOr([])|
  {
    match flat
    case None => []
    case Some(l) =>
      (if Present(l.image) then [l.image.value] else []) + l.additionalImages.GetOr([])
  }

  /** Builds the image list as the page does: the main image first, then
      each additional image pushed in turn. */
  method BuildImages(flat: Option<Listing>) returns (images: seq<string>)
    ensures images == ImageList(flat)
  {
    images := [];
    if flat.Some? && Present(flat.value.image) {
      images := [flat.value.image.value];
    }
    if flat.Some? && flat.value.additionalImages.Some? {
      var extra := flat.value.additionalImages.value;
      var start := images;
      var i := 0;
      while i < |extra|
        invariant 0 <= i <= |extra|
        invariant images == start + extra[..i]
      {
        images := images + [extra[i]];
        i := i + 1;
      }
      assert extra[..i] == extra;
    }
  }

  /** The main image, when there is one, comes first, and the additional
      images follow in their order. */
  lemma ImageListShape(l: Listing)
    ensures var r := ImageList(Some(l));
      var k := if Present(l.image) then 1 else 0;
      |r| == k + |l.additionalImages.GetOr([])|
      && (Present(l.image) ==> r[0] == l.image.value)
      && (forall i :: 0 <= i < |l.additionalImages.GetOr([])| ==> r[k + i] == l.additionalImages.GetOr([])[i])
  {
  }

  /** One slide of the carousel, with its "position / total" counter. */
  datatype Slide = Slide(src: string, position: nat, total: nat)

  datatype Gallery = NoImage | SingleImage(src: string) | Carousel(slides: seq<Slide>, thumbnails: seq<string>)

  /** The display-mode choice: a placeholder for no image, a plain image for
      one, a carousel with thumbnails for two or more. */
  function GalleryOf(images: seq<string>): (g: Gallery)
    ensures g.NoImage? <==> |images| == 0
    ensures g.SingleImage? <==> |images| == 1
    ensures g.SingleImage? ==> g.src == images[0]
    ensures g.Carousel? <==> |images| >= 2
    ensures g.Carousel? ==> |g.slides| == |images| && g.thumbnails == images
  {
    if |images| == 0 then NoImage
    else if |images| == 1 then SingleImage(images[0])
    else Carousel(seq(|images|, k requires 0 <= k < |images| => Slide(images[k], k + 1, |images|)), images)
  }

  /** Every counter reads `k / n` with `1 <= k <= n`, each slide its own
      number, in the order of the images. */
  lemma SlideCounters(images: seq<string>)
    requires |images| >= 2
    ensures var slides := GalleryOf(images).slides;
      forall k :: 0 <= k < |slides| ==>
        slides[k].src == images[k] && slides[k].total == |images|
        && 1 <= slides[k].position <= slides[k].total && slides[k].position == k + 1
  {
  }

  /** `getAmenityIcon`: the card's icon table, with an arrow for the rest. */
  function AmenityIcon(amenity: string): (r: FlatCard.Icon)
    ensures r != FlatCard.Arrow <==> ToLower(amenity) in {"wifi", "parking", "pool", "ac", "security", "elevator"}
  {
    FlatCard.KnownIcon(ToLower(amenity)).GetOr(FlatCard.Arrow)
  }

  /** The details page and the card agree on every amenity the card has an
      icon for; the card shows no icon exactly where this page shows the arrow. */
  lemma IconsAgreeWithCard(amenity: string)
    ensures FlatCard.ChipOf(amenity).icon.Some? ==> AmenityIcon(amenity) == FlatCard.ChipOf(amenity).icon.value
    ensures FlatCard.ChipOf(amenity).icon.None? <==> AmenityIcon(amenity) == FlatCard.Arrow
  {
  }

  /** The amenity block: every amenity with its icon, or nothing for a
      missing or empty list. */
  function AmenityBlock(amenities: Option<seq<string>>): (r: Option<seq<(FlatCard.Icon, string)>>)
    ensures r.Some? <==> amenities.Some? && |amenities.value| > 0
    ensures r.Some? ==> |r.value| == |amenities.value|
    ensures r.Some? ==> forall i :: 0 <= i < |r.value| ==> r.value[i] == (AmenityIcon(amenities.value[i]), amenities.value[i])
  {
    match amenities
    case Some(a) =>
      if |a| > 0 then Some(seq(|a|, i requires 0 <= i < |a| => (AmenityIcon(a[i]), a[i]))) else None
    case None => None
  }

  const GreenBadge: string := "bg-green-100 text-green-700"
  const RedBadge: string := "bg-red-100 text-red-700"

  datatype Badge = Badge(cls: string, text: string)

  /** The status badge: green only for exactly "available"; the text is the
      status with its first letter upper-cased, and "NaN" when there is no
      status (`undefined + undefined`). */
  function StatusBadge(status: Option<string>): (b: Badge)
    ensures b.cls == GreenBadge <==> status == Some("available")
    ensures b.cls == RedBadge <==> status != Some("available")
    ensures status.None? ==> b.text == "NaN"
    ensures status.Some? ==> |b.text| == |status.value|
    ensures status.Some? && |status.value| > 0 ==>
      b.text[0] == UpperChar(status.value[0]) && b.text[1..] == status.value[1..]
  {
    Badge(if status == Some("available") then GreenBadge else RedBadge,
          match status
          case Some(s) => Capitalize(s)
          case None => "NaN")
  }

  /** Unlike the card, the badge is case-sensitive: "Available" is green on
      the card and red here. */
  lemma BadgeDisagreesWithCard()
    ensures FlatCard.StatusColor(Some("Available")) == "bg-green-100 text-green-800"
    ensures StatusBadge(Some("Available")).cls == RedBadge
  {
    FlatCard.StatusColorIgnoresCase("Available");
    assert ToLower("Available") == "available";
  }

  /** The overlay's links: target and the `from` path they carry. */
  datatype Overlay = Overlay(login: (string, string), signup: (string, string))

  datatype Contact = Contact(blurred: bool, overlay: Option<Overlay>)

  /** The contact block: blurred and covered by the login/signup overlay
      exactly when nobody is signed in. */
  function ContactBlock(user: Option<User>, pathname: string): (c: Contact)
    ensures c.blurred <==> user.None?
    ensures c.overlay.Some? <==> user.None?
    ensures c.overlay.Some? ==> c.overlay.value == Overlay(("/login", pathname), ("/signup", pathname))
  {
    if user.None? then Contact(true, Some(Overlay(("/login", pathname), ("/signup", pathname))))
    else Contact(false, None)
  }

  /** Following the overlay's login link, a successful login comes back to
      this page. */
  lemma OverlayLoginReturnsHere(pathname: string, session: Storage)
    requires pathname != ""
    ensures var from := ContactBlock(None, pathname).overlay.value.login.1;
      ReturnPath(session[PreviousPathKey := StoredPath(Some(from))]) == pathname
  {
    ReturnToStoredPath(session, Some(pathname));
  }

  /** The outcome of `GET /property/:id`: the body, or the request error's
      message. */
  datatype Fetch = Fetched(data: Option<Listing>) | Failed(errorMessage: string)

  datatype Screen = Spinner | ErrorScreen(message: string) | Details(gallery: Gallery)

  class DetailsPage {
    var flat: Option<Listing>
    var loading: bool
    var error: string
    var currentSlide: nat
    var showFullImage: bool

    constructor()
      ensures flat == None && loading && error == "" && currentSlide == 0 && !showFullImage
    {
      flat, loading, error := None, true, "";
      currentSlide, showFullImage := 0, false;
    }

    /** `fetchPropertyDetails` */
    method Load(outcome: Fetch)
      modifies this
      ensures !loading && currentSlide == old(currentSlide) && showFullImage == old(showFullImage)
      ensures outcome.Fetched? ==> flat == outcome.data && error == old(error)
      ensures outcome.Failed? ==> flat == old(flat) && error == outcome.errorMessage
    {
      match outcome {
        case Fetched(data) =>
          flat := data;
        case Failed(message) =>
          error := message;
      }
      loading := false;
    }

    /** `handleThumbnailClick` */
    method SelectThumbnail(index: nat)
      modifies this
      ensures currentSlide == index
      ensures flat == old(flat) && loading == old(loading) && error == old(error) && showFullImage == old(showFullImage)
    {
      currentSlide := index;
    }

    /** `toggleFullImage` */
    method ToggleFullImage()
      modifies this
      ensures showFullImage == !old(showFullImage)
      ensures flat == old(flat) && loading == old(loading) && error == old(error) && currentSlide == old(currentSlide)
    {
      showFullImage := !showFullImage;
    }

    /** What the page renders: the spinner while loading, the error when its
      message is non-empty, else the details with their gallery. */
    function View(): (s: Screen)
      reads this
      ensures s.Spinner? <==> loading
      ensures s.ErrorScreen? <==> !loading && error != ""
      ensures s.Details? ==> s.gallery == GalleryOf(ImageList(flat))
    {
      if loading then Spinner
      else if error != "" then ErrorScreen(error)
      else Details(GalleryOf(ImageList(flat)))
    }
  }
}
