/** The Gallery page: the size-tier choice of an image's address, the built-in images shown
    when the service returns none, the page's three views, and the lightbox with the body's
    scroll setting. */
module Gallery {
  import opened Wrappers
  import opened Text
  import opened MediaUrl
  import Reveal

  /** A gallery image; each format is the `url` of that size, when the service sent one. */
  datatype Image = Image(
    id: int,
    name: string,
    url: string,
    thumbnail: Option<string>,
    small: Option<string>,
    medium: Option<string>)

  // ---------------------------------------------------------------------------------------
  // Addresses

  /** The size tier `getImageUrl` picks: a truthy medium url, else a truthy small url. */
  function Tier(img: Image): (t: Option<string>)
    ensures t.Some? <==> Truthy(img.medium) || Truthy(img.small)
    ensures t.Some? ==> t.value != "" && (t == img.medium || t == img.small)
    ensures Truthy(img.medium) ==> t == img.medium
  {
    if Truthy(img.medium) then img.medium
    else if Truthy(img.small) then img.small
    else None
  }

  /** `getImageUrl` (lines 82-92): a tier's url always gets the origin put in front, with no
      test for an absolute address; without a tier the image's own url is resolved. */
  function ImageUrl(baseUrl: string, img: Image): (r: string)
    ensures Tier(img).Some? ==> r == baseUrl + Tier(img).value
    ensures Tier(img).None? ==> r == Resolve(baseUrl, img.url)
    ensures StartsWith(r, baseUrl) || r == img.url
  {
    match Tier(img)
    case Some(t) => baseUrl + t
    case None => Resolve(baseUrl, img.url)
  }

  /** The thumbnail format never takes part in the choice. */
  lemma ImageUrlIgnoresThumbnail(baseUrl: string, img: Image, thumbnail: Option<string>)
    ensures ImageUrl(baseUrl, img.(thumbnail := thumbnail)) == ImageUrl(baseUrl, img)
  {
  }

  /** A tier holding an absolute address still gets the origin in front of it, so the
      result then names the origin twice. */
  lemma AbsoluteTierIsStillPrefixed(baseUrl: string, img: Image)
    requires Truthy(img.medium) && IsAbsolute(img.medium.value) && baseUrl != ""
    ensures ImageUrl(baseUrl, img) != img.medium.value
    ensures EndsWith(ImageUrl(baseUrl, img), img.medium.value)
  {
    assert |ImageUrl(baseUrl, img)| == |baseUrl| + |img.medium.value|;
    assert ImageUrl(baseUrl, img)[|baseUrl|..] == img.medium.value;
  }

  /** The `src` of a grid tile (line 159) and of the lightbox picture (line 216): an absolute
      `url` of the image itself comes before any tier. */
  function DisplaySrc(baseUrl: string, img: Image): (r: string)
    ensures IsAbsolute(img.url) ==> r == img.url
    ensures !IsAbsolute(img.url) ==> r == ImageUrl(baseUrl, img)
    ensures IsAbsolute(r) || StartsWith(r, baseUrl)
  {
    if IsAbsolute(img.url) then img.url else ImageUrl(baseUrl, img)
  }

  /** The shown address and `getImageUrl` disagree exactly when the image's own url is
      absolute, a tier is present, and origin plus tier does not spell that url. */
  lemma DisplaySrcDiffersIff(baseUrl: string, img: Image)
    ensures DisplaySrc(baseUrl, img) != ImageUrl(baseUrl, img) <==>
      IsAbsolute(img.url) && Tier(img).Some? && baseUrl + Tier(img).value != img.url
  {
  }

  // ---------------------------------------------------------------------------------------
  // What the grid shows

  /** The address of a photo on the stock-photo host. */
  function Pexels(photo: string): (url: string)
    ensures IsAbsolute(url)
  {
    var url := "https://images.pexels.com/photos/" + photo + "/pexels-photo-" + photo + ".jpeg";
    assert url[..4] == "http";
    url
  }

  /** The six built-in images (lines 43-80): ids 1 to 6, absolute addresses, no formats. */
  const FallbackImages: seq<Image> := [
    Image(1, "Web Development", Pexels("1714208"), None, None, None),
    Image(2, "Robotics", Pexels("2599244"), None, None, None),
    Image(3, "Digital Innovation", Pexels("3861969"), None, None, None),
    Image(4, "Team Collaboration", Pexels("3184306"), None, None, None),
    Image(5, "Technology", Pexels("3861958"), None, None, None),
    Image(6, "Innovation Hub", Pexels("3861967"), None, None, None)
  ]

  /** `displayImages` (line 94): the fetched images when there are any, else the built-in ones. */
  function DisplayImages(images: seq<Image>): (r: seq<Image>)
    ensures |images| > 0 ==> r == images
    ensures |images| == 0 ==> r == FallbackImages
    ensures |r| > 0
  {
    if |images| > 0 then images else FallbackImages
  }

  /** The built-in images are numbered 1 to 6 in order and each is shown at its own address,
      whatever the origin. */
  lemma FallbackImagesShowTheirOwnUrl(baseUrl: string)
    ensures |FallbackImages| == 6
    ensures forall i :: 0 <= i < 6 ==> FallbackImages[i].id == i + 1
    ensures forall i :: 0 <= i < 6 ==>
      DisplaySrc(baseUrl, FallbackImages[i]) == ImageUrl(baseUrl, FallbackImages[i]) == FallbackImages[i].url
  {
  }

  /** One card of the grid. */
  datatype Tile = Tile(id: int, src: string, alt: string, delayMs: nat)

  datatype View =
    | Spinner
    | ErrorMessage(text: string)
    | Grid(tiles: seq<Tile>)

  /** The tiles of the images shown, each delayed by 100 ms per position (line 154). */
  function Tiles(baseUrl: string, shown: seq<Image>): (r: seq<Tile>)
    ensures |r| == |shown|
    ensures forall i :: 0 <= i < |r| ==>
      r[i].id == shown[i].id && r[i].alt == shown[i].name &&
      r[i].src == DisplaySrc(baseUrl, shown[i])
    ensures forall i :: 0 <= i < |r| ==> r[i].delayMs == Reveal.Delay(0, Reveal.GalleryTileStep, i)
  {
    seq(|shown|, i requires 0 <= i < |shown| =>
      Tile(shown[i].id, DisplaySrc(baseUrl, shown[i]), shown[i].name, Reveal.Delay(0, Reveal.GalleryTileStep, i)))
  }

  /** The page's state after the loader has run. */
  datatype PageState = PageState(images: seq<Image>, loading: bool, error: Option<string>)

  /** What the fetch gave: a list of images, or a failure. */
  datatype Fetch = Fetched(data: seq<Image>) | Failed

  const LoadErrorText := "Failed to load gallery. Please try again later."

  /** The page before the loader finishes. */
  const Initial := PageState([], true, None)

  /** The loader (lines 27-41): the fetched list is stored, a failure sets the message, and
      loading always ends. */
  function AfterLoad(f: Fetch): (s: PageState)
    ensures !s.loading
    ensures f.Failed? ==> s.images == [] && s.error == Some(LoadErrorText)
    ensures f.Fetched? ==> s.images == f.data && s.error == None
  {
    match f
    case Fetched(data) => PageState(data, false, None)
    case Failed => PageState([], false, Some(LoadErrorText))
  }

  /** The view (lines 106-186): the spinner while loading, the error message only when there
      is an error and no image was loaded, otherwise the grid of the shown images. */
  function Render(baseUrl: string, s: PageState): (v: View)
    ensures s.loading <==> v.Spinner?
    ensures v.ErrorMessage? <==> !s.loading && Truthy(s.error) && |s.images| == 0
    ensures v.ErrorMessage? ==> v.text == s.error.value
    ensures v.Grid? ==> v.tiles == Tiles(baseUrl, DisplayImages(s.images))
  {
    if s.loading then Spinner
    else if Truthy(s.error) && |s.images| == 0 then ErrorMessage(s.error.value)
    else Grid(Tiles(baseUrl, DisplayImages(s.images)))
  }

  /** The grid is never empty: without loaded images it shows the six built-in ones. */
  lemma GridNeverEmpty(baseUrl: string, s: PageState)
    ensures Render(baseUrl, s).Grid? ==> |Render(baseUrl, s).tiles| > 0
    ensures !s.loading && s.error.None? && |s.images| == 0 ==>
      Render(baseUrl, s) == Grid(Tiles(baseUrl, FallbackImages))
  {
  }

  /** A failed fetch shows its message; a fetch of no images shows the built-in ones. */
  lemma LoadOutcomes(baseUrl: string, data: seq<Image>)
    ensures Render(baseUrl, AfterLoad(Failed)) == ErrorMessage(LoadErrorText)
    ensures |data| == 0 ==> Render(baseUrl, AfterLoad(Fetched(data))) == Grid(Tiles(baseUrl, FallbackImages))
    ensures |data| > 0 ==> Render(baseUrl, AfterLoad(Fetched(data))) == Grid(Tiles(baseUrl, data))
  {
  }

  // ---------------------------------------------------------------------------------------
  // The lightbox

  /** `document.body.style.overflow`: never assigned yet, `'hidden'`, or `'auto'`. */
  datatype Overflow = Unset | Hidden | Auto

  /** Where a click lands while the page is shown. */
  datatype Click =
    | OnThumbnail(img: Image)
    | OnBackdrop
    | OnCloseButton
    | OnPanel

  /** The selected image of the lightbox together with the body's scroll setting. */
  class Lightbox {
    var selected: Option<Image>
    var overflow: Overflow

    /** The scroll is locked exactly while an image is selected. */
    predicate Valid()
      reads this
    {
      selected.Some? <==> overflow == Hidden
    }

    constructor ()
      ensures selected == None && overflow == Unset
      ensures Valid()
    {
      selected := None;
      overflow := Unset;
    }

    /** `openLightbox` (lines 96-99): select the image, lock the scroll. Opening while open
        replaces the selection. */
    method Open(img: Image)
      modifies this
      ensures selected == Some(img) && overflow == Hidden
      ensures Valid()
    {
      selected := Some(img);
      overflow := Hidden;
    }

    /** `closeLightbox` (lines 101-104): clear the selection, release the scroll. */
    method Close()
      modifies this
      ensures selected == None && overflow == Auto
      ensures Valid()
    {
      selected := None;
      overflow := Auto;
    }

    /** The click handlers: a thumbnail opens (line 162), the backdrop (line 196) and the
        close button (line 208) close, and a click inside the panel stops propagation
        (line 204), so it changes nothing. */
    method HandleClick(c: Click)
      modifies this
      ensures c.OnThumbnail? ==> selected == Some(c.img) && overflow == Hidden
      ensures (c.OnBackdrop? || c.OnCloseButton?) ==> selected == None && overflow == Auto
      ensures c.OnPanel? ==> selected == old(selected) && overflow == old(overflow)
      ensures old(Valid()) ==> Valid()
    {
      match c
      case OnThumbnail(img) => Open(img);
      case OnBackdrop => Close();
      case OnCloseButton => Close();
      case OnPanel =>
    }

    /** The lightbox's picture and caption, shown while an image is selected. */
    function Shown(baseUrl: string): (r: Option<(string, string)>)
      reads this
      ensures r.Some? <==> selected.Some?
      ensures r.Some? ==> r.value.0 == DisplaySrc(baseUrl, selected.value) && r.value.1 == selected.value.name
    {
      match selected
      case Some(img) => Some((DisplaySrc(baseUrl, img), img.name))
      case None => None
    }
  }
}
