/** The Album page: albums as cards, the photos of the selected album as tiles, the photo
    lightbox, and the size tier each picture is shown at. */
module Albums {
  import opened Wrappers
  import opened Text
  import opened MediaUrl
  import Reveal

  /** A photo; `medium` and `large` are the urls of those formats, when present. */
  datatype Photo = Photo(id: int, name: string, url: string, medium: Option<string>, large: Option<string>)

  datatype Album = Album(id: int, title: string, coverUrl: string, photos: seq<Photo>)

  // ---------------------------------------------------------------------------------------
  // Addresses

  /** `formats.<tier>?.url || url`: a truthy tier url, else the photo's own url. */
  function TierOrOwn(tier: Option<string>, url: string): (r: string)
    ensures Truthy(tier) ==> r == tier.value
    ensures !Truthy(tier) ==> r == url
  {
    if Truthy(tier) then tier.value else url
  }

  /** A photo tile (line 146): the medium format or the photo's url, resolved. */
  function TileSrc(baseUrl: string, p: Photo): (r: string)
    ensures IsAbsolute(TierOrOwn(p.medium, p.url)) ==> r == TierOrOwn(p.medium, p.url)
    ensures !IsAbsolute(TierOrOwn(p.medium, p.url)) ==> r == baseUrl + TierOrOwn(p.medium, p.url)
    ensures EndsWith(r, TierOrOwn(p.medium, p.url))
    ensures StartsWith(r, baseUrl) || IsAbsolute(r)
  {
    Resolve(baseUrl, TierOrOwn(p.medium, p.url))
  }

  /** The lightbox picture (line 203): the large format or the photo's url, resolved. */
  function LightboxSrc(baseUrl: string, p: Photo): (r: string)
    ensures IsAbsolute(TierOrOwn(p.large, p.url)) ==> r == TierOrOwn(p.large, p.url)
    ensures !IsAbsolute(TierOrOwn(p.large, p.url)) ==> r == baseUrl + TierOrOwn(p.large, p.url)
    ensures EndsWith(r, TierOrOwn(p.large, p.url))
    ensures StartsWith(r, baseUrl) || IsAbsolute(r)
  {
    Resolve(baseUrl, TierOrOwn(p.large, p.url))
  }

  /** An album card's cover (line 100); the `|| ''` after the resolver never changes it. */
  function CoverSrc(baseUrl: string, a: Album): (r: string)
    ensures IsAbsolute(a.coverUrl) ==> r == a.coverUrl
    ensures !IsAbsolute(a.coverUrl) ==> r == baseUrl + a.coverUrl
    ensures r == "" <==> baseUrl == "" && a.coverUrl == ""
    ensures EndsWith(r, a.coverUrl)
  {
    var resolved := Resolve(baseUrl, a.coverUrl);
    if resolved != "" then resolved else ""
  }

  /** Without either format, tile and lightbox show the same picture. */
  lemma TileAndLightboxAgreeWithoutFormats(baseUrl: string, p: Photo)
    requires !Truthy(p.medium) && !Truthy(p.large)
    ensures TileSrc(baseUrl, p) == LightboxSrc(baseUrl, p) == Resolve(baseUrl, p.url)
  {
  }

  /** Unlike the Gallery's tiers, an absolute format url is used as it is. */
  lemma AbsoluteFormatsAreKept(baseUrl: string, p: Photo)
    ensures Truthy(p.medium) && IsAbsolute(p.medium.value) ==> TileSrc(baseUrl, p) == p.medium.value
    ensures Truthy(p.large) && IsAbsolute(p.large.value) ==> LightboxSrc(baseUrl, p) == p.large.value
  {
  }

  /** A relative format url gets the origin in front, exactly once. */
  lemma RelativeFormatsArePrefixed(baseUrl: string, p: Photo)
    ensures Truthy(p.large) && !IsAbsolute(p.large.value) ==>
      LightboxSrc(baseUrl, p) == baseUrl + p.large.value
    ensures Truthy(p.medium) && !IsAbsolute(p.medium.value) ==>
      TileSrc(baseUrl, p) == baseUrl + p.medium.value
  {
  }

  // ---------------------------------------------------------------------------------------
  // Labels

  /** `n === 1 ? 'photo' : 'photos'` */
  function Noun(n: nat): (r: string)
    ensures r == "photo" <==> n == 1
    ensures r == "photos" <==> n != 1
  {
    if n == 1 then "photo" else "photos"
  }

  /** The photo count of lines 61 and 125: the decimal count, a space, and the noun. */
  function CountLabel(n: nat): (r: string)
    ensures |r| == |DecimalString(n)| + 1 + |Noun(n)|
  {
    DecimalString(n) + " " + Noun(n)
  }

  /** The label reads back as its count, and it says "photo" exactly when the count is 1. */
  lemma CountLabelReadsBack(n: nat)
    ensures var d := |DecimalString(n)|;
      DecimalValue(CountLabel(n)[..d]) == n && CountLabel(n)[d] == ' ' &&
      (CountLabel(n)[d + 1..] == "photo" <==> n == 1) &&
      (CountLabel(n)[d + 1..] == "photos" <==> n != 1)
  {
    var d := DecimalString(n);
    assert CountLabel(n)[..|d|] == d;
    assert CountLabel(n)[|d| + 1..] == Noun(n);
    DecimalRoundTrip(n);
  }

  const AlbumsTitle := "Albums"
  const AlbumsSubtitle := "Explore our curated collections of images and projects"

  /** The header (lines 55 and 60-63) for the selection. */
  function Title(selected: Option<Album>): (r: string)
    ensures selected.Some? ==> r == selected.value.title
    ensures selected.None? ==> r == AlbumsTitle
  {
    match selected
    case Some(a) => a.title
    case None => AlbumsTitle
  }

  function Subtitle(selected: Option<Album>): (r: string)
    ensures selected.Some? ==> r == CountLabel(|selected.value.photos|) + " in this collection"
    ensures selected.None? ==> r == AlbumsSubtitle
  {
    match selected
    case Some(a) => CountLabel(|a.photos|) + " in this collection"
    case None => AlbumsSubtitle
  }

  // ---------------------------------------------------------------------------------------
  // The grids

  datatype AlbumCard = AlbumCard(id: int, coverSrc: string, title: string, countLabel: string, delayMs: nat)

  datatype PhotoTile = PhotoTile(id: int, src: string, alt: string, delayMs: nat)

  datatype Content =
    | AlbumGrid(cards: seq<AlbumCard>)
    | PhotoGrid(tiles: seq<PhotoTile>)

  /** The album cards (lines 88-129), staggered by 100 ms per position. */
  function AlbumCards(baseUrl: string, albums: seq<Album>): (r: seq<AlbumCard>)
    ensures |r| == |albums|
    ensures forall i :: 0 <= i < |r| ==> r[i].id == albums[i].id && r[i].title == albums[i].title
    ensures forall i :: 0 <= i < |r| ==> r[i].coverSrc == CoverSrc(baseUrl, albums[i])
    ensures forall i :: 0 <= i < |r| ==> r[i].countLabel == CountLabel(|albums[i].photos|)
    ensures forall i :: 0 <= i < |r| ==> r[i].delayMs == Reveal.Delay(0, Reveal.AlbumStep, i)
  {
    seq(|albums|, i requires 0 <= i < |albums| =>
      AlbumCard(albums[i].id, CoverSrc(baseUrl, albums[i]), albums[i].title,
                CountLabel(|albums[i].photos|), Reveal.Delay(0, Reveal.AlbumStep, i)))
  }

  /** The photo tiles (lines 134-170), staggered by 100 ms per position. */
  function PhotoTiles(baseUrl: string, photos: seq<Photo>): (r: seq<PhotoTile>)
    ensures |r| == |photos|
    ensures forall i :: 0 <= i < |r| ==> r[i].id == photos[i].id && r[i].alt == photos[i].name
    ensures forall i :: 0 <= i < |r| ==> r[i].src == TileSrc(baseUrl, photos[i])
    ensures forall i :: 0 <= i < |r| ==> r[i].delayMs == Reveal.Delay(0, Reveal.AlbumStep, i)
  {
    seq(|photos|, i requires 0 <= i < |photos| =>
      PhotoTile(photos[i].id, TileSrc(baseUrl, photos[i]), photos[i].name, Reveal.Delay(0, Reveal.AlbumStep, i)))
  }

  /** Lines 85-172: the album cards when no album is selected, otherwise the tiles of the
      selected album's photos. */
  function Grid(baseUrl: string, albums: seq<Album>, selected: Option<Album>): (c: Content)
    ensures selected.None? <==> c.AlbumGrid?
    ensures c.AlbumGrid? ==> c.cards == AlbumCards(baseUrl, albums)
    ensures c.PhotoGrid? ==> c.tiles == PhotoTiles(baseUrl, selected.value.photos)
  {
    match selected
    case None => AlbumGrid(AlbumCards(baseUrl, albums))
    case Some(a) => PhotoGrid(PhotoTiles(baseUrl, a.photos))
  }

  // ---------------------------------------------------------------------------------------
  // The page state

  /** What the fetch gave: a list of albums, or a failure. */
  datatype Fetch = Fetched(data: seq<Album>) | Failed

  /** Where a click lands. */
  datatype Click =
    | OnAlbum(album: Album)
    | OnBackToAlbums
    | OnPhoto(photo: Photo)
    | OnBackdrop
    | OnCloseButton
    | OnPanel

  /** What the page shows: the spinner while loading (lines 37-46), else the header, the grid
      and, while a photo is selected, the lightbox over everything (lines 48-220). */
  datatype Screen =
    | Spinner
    | Shown(title: string, subtitle: string, backButton: bool, grid: Content,
            lightbox: Option<(string, string)>)

  /** The page's state. The page never touches the document's scroll setting, so there is no
      field for it. */
  class AlbumPage {
    var albums: seq<Album>
    var loading: bool
    var selectedAlbum: Option<Album>
    var selectedImage: Option<Photo>

    /** What the clicks the page offers keep true: nothing is selected while loading, the
        open album is one of the loaded albums, an open photo belongs to a loaded album, and
        to the open album while one is open. "Back to Albums" can clear the album under an
        open photo, so an open photo does not need an open album. */
    ghost predicate Valid()
      reads this
    {
      (loading ==> selectedAlbum.None? && selectedImage.None?) &&
      (selectedAlbum.Some? ==> selectedAlbum.value in albums) &&
      (selectedImage.Some? ==> exists a :: a in albums && selectedImage.value in a.photos) &&
      (selectedImage.Some? && selectedAlbum.Some? ==> selectedImage.value in selectedAlbum.value.photos)
    }

    /** The clicks the current screen offers. Nothing is clickable under the spinner. The
        lightbox covers the whole page (`fixed inset-0`), so while it is open a mouse click
        reaches only its own parts and the album cards and photo tiles, which are plain
        `div`s, take no input. "Back to Albums" is a `<button>` (lines 70-77): the keyboard
        can focus and press it under the overlay, so it is offered whenever an album is
        open. */
    predicate Offers(c: Click)
      reads this
    {
      !loading &&
      match c
      case OnAlbum(a) => selectedImage.None? && selectedAlbum.None? && a in albums
      case OnBackToAlbums => selectedAlbum.Some?
      case OnPhoto(p) => selectedImage.None? && selectedAlbum.Some? && p in selectedAlbum.value.photos
      case _ => selectedImage.Some?
    }

    constructor ()
      ensures albums == [] && loading
      ensures selectedAlbum.None? && selectedImage.None?
      ensures Valid()
    {
      albums := [];
      loading := true;
      selectedAlbum := None;
      selectedImage := None;
    }

    /** The loader (lines 18-31): the fetched albums are stored; a failure is only logged,
        so the list stays as it was, with no error view; loading always ends. */
    method FinishLoading(f: Fetch)
      requires Valid() && loading
      modifies this`albums, this`loading
      ensures !loading && Valid()
      ensures albums == if f.Fetched? then f.data else old(albums)
    {
      if f.Fetched? {
        albums := f.data;
      }
      loading := false;
    }

    /** The click handlers: an album card selects its album (line 92), "Back to Albums"
        clears it (line 71), a photo tile opens the lightbox on it (line 138), the backdrop
        (line 183) and the close button (line 195) close the lightbox, and a click inside the
        panel stops propagation (line 191). Each handler sets one field only. */
    method HandleClick(c: Click)
      requires Valid() && Offers(c)
      modifies this`selectedAlbum, this`selectedImage
      ensures Valid()
      ensures c.OnAlbum? ==> selectedAlbum == Some(c.album) && selectedImage == old(selectedImage)
      ensures c.OnBackToAlbums? ==> selectedAlbum.None? && selectedImage == old(selectedImage)
      ensures c.OnPhoto? ==> selectedImage == Some(c.photo) && selectedAlbum == old(selectedAlbum)
      ensures (c.OnBackdrop? || c.OnCloseButton?) ==> selectedImage.None? && selectedAlbum == old(selectedAlbum)
      ensures c.OnPanel? ==> selectedImage == old(selectedImage) && selectedAlbum == old(selectedAlbum)
    {
      match c
      case OnAlbum(a) => selectedAlbum := Some(a);
      case OnBackToAlbums => selectedAlbum := None;
      case OnPhoto(p) =>
        selectedImage := Some(p);
        assert selectedAlbum.value in albums && p in selectedAlbum.value.photos;
      case OnBackdrop => selectedImage := None;
      case OnCloseButton => selectedImage := None;
      case OnPanel =>
    }

    /** The lightbox's picture and caption, while a photo is selected. */
    function Lightbox(baseUrl: string): (r: Option<(string, string)>)
      reads this
      ensures r.Some? <==> selectedImage.Some?
      ensures r.Some? ==> r.value == (LightboxSrc(baseUrl, selectedImage.value), selectedImage.value.name)
    {
      match selectedImage
      case Some(p) => Some((LightboxSrc(baseUrl, p), p.name))
      case None => None
    }

    /** The page (lines 37-220): the spinner exactly while loading, else the header for the
        selection, the back button exactly with an open album, the grid, and the lightbox. */
    function Screen(baseUrl: string): (v: Screen)
      reads this
      ensures v.Spinner? <==> loading
      ensures v.Shown? ==> v.title == Title(selectedAlbum) && v.subtitle == Subtitle(selectedAlbum)
      ensures v.Shown? ==> (v.backButton <==> selectedAlbum.Some?)
      ensures v.Shown? ==> v.grid == Grid(baseUrl, albums, selectedAlbum) && v.lightbox == Lightbox(baseUrl)
    {
      if loading then Spinner
      else Shown(Title(selectedAlbum), Subtitle(selectedAlbum), selectedAlbum.Some?,
                 Grid(baseUrl, albums, selectedAlbum), Lightbox(baseUrl))
    }

    /** While an album is open, the open photo is a tile of the grid under the lightbox:
        its name and tile address are among the tiles shown. */
    lemma LightboxPhotoIsInTheGrid(baseUrl: string)
      requires Valid() && !loading && selectedImage.Some? && selectedAlbum.Some?
      ensures Screen(baseUrl).grid.PhotoGrid?
      ensures var tiles := Screen(baseUrl).grid.tiles;
        exists i :: 0 <= i < |tiles| && tiles[i].alt == selectedImage.value.name &&
                    tiles[i].src == TileSrc(baseUrl, selectedImage.value)
    {
      var photos := selectedAlbum.value.photos;
      var i :| 0 <= i < |photos| && photos[i] == selectedImage.value;
      assert Screen(baseUrl).grid.tiles[i].alt == selectedImage.value.name;
    }
  }
}
