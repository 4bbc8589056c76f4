# frontend-starpi page logic in Dafny

This project models the logic inside the page components of the frontend-starpi site. These
are the small, deterministic decisions that settle what a visitor sees:

- **Articles**: the list of category buttons, and the category filter with its newest-first
  ordering. The 'all' filter sorts the stored array in place. The model also covers the
  staggered card delays and the empty-category message.
- **Gallery**: which size of an image is shown, and the six built-in images used when the
  service returns none. Also the spinner, error and grid views, and the lightbox, which locks
  the page scroll while it is open.
- **Album**: the album and photo grids, the medium and large sizes, the "n photo(s)" label,
  and the album and photo selection.
- **About**: finding page blocks by component name, flattening the section's rich text into
  one markdown string, the section image, the team cards with their avatars, and the error
  view. The page is modelled as written (`About.Render`) and with the section image
  corrected (`About.RenderCorrected`).
- **Author**: the avatar address, the bio made only of paragraph blocks, and the author's
  article list with its count.
- **Article detail**: the reading time and the choice between spinner, error view and article.
- **Footer**: the load guard, the description paragraphs, the link-or-plain-text choice and
  the delays.

Modules follow the source files: `Articles`, `Gallery`, `Albums`, `About`, `Author`,
`ArticleDetail` and `Footer`, one per page. The pages share these modules:

- `Text`: JavaScript string operations, truthiness, `join` and decimal numerals;
- `Seqs`: `filter`, and the order-keeping de-duplication of `Array.from(new Set(...))`;
- `MediaUrl`: the `getImageUrl` resolver of the Album and Author pages;
- `RichText`: blocks and spans;
- `Reveal`: the entrance delays, in whole milliseconds;
- `ArticleData`: the article record;
- `Wrappers`: `Option`.

The code works by changing state in three places, and the model keeps that form there:

- `Articles.ArticlesPage` is a class. Its 'all' branch sorts an `array<Article>` in place with
  an insertion sort, proved equal to the functional stable sort `Articles.NewestFirst`.
- `Gallery.Lightbox` is a class. It holds the selected image and `document.body.style.overflow`.
- `Albums.AlbumPage` is a class. It holds the albums, the loading flag, the selected album
  and the selected photo. Its clicks are limited to the ones the current screen offers.

Everything else is functions and lemmas.

Some of what the code does differs from what a reader might expect, and the model follows the code:

- **Slashes.** A relative reference gets the origin put in front exactly as written. No
  slash is added or removed.
- **Gallery tiers.** The Gallery tries `medium`, then `small`, then the image's own url.
  `thumbnail` is never used. A tier's url always gets the origin in front, even when the tier
  url is absolute. At render time an absolute `url` of the image itself wins over every tier.
- **Album tiers.** Album tiles use `medium` or the photo's url. The Album lightbox uses
  `large` or the photo's url. There is no longer fallback chain.
- **Resolved addresses.** Not every address comes out absolute and non-empty. With a
  relative origin the result is relative. A missing Author avatar gives the bare origin.
- **About text.** The About section joins the spans of every block, whatever its type, with a
  space, and joins the blocks with a blank line. An empty block therefore still leaves its
  separators (`About.EmptyBlockKeepsItsSeparators`).
- **Article page reloads.** The article loader runs again on every slug change without
  resetting anything. A fetch never clears an earlier error, so once a load has failed the
  page shows the failure message for every later article (`ArticleDetail.ErrorOutlivesLaterLoads`).
- **Album back button.** "Back to Albums" is a real button. The keyboard can press it while
  the lightbox covers the page, which leaves a photo open with no album selected.
- **Author and Footer text.** The Author bio and the Footer description keep paragraph
  blocks only. Their spans are concatenated with no separator.
- **Viewers.** The Gallery and Album viewers are separate state. The Album viewer never
  touches the scroll, and there is no Escape-key dismissal.
- **Sorting 'all'.** The 'all' filter also sorts, in place. Re-sorting the sorted store
  changes nothing a later render shows (`Articles.SortedStoreSelectsTheSame`).

## Model

| member | source | states |
|---|---|---|
| Articles.CategoryNames | src/pages/Articles.tsx:24-26 | the names are exactly the categories of the articles that have one; `Articles.CategoryNamesSnoc` fixes their order as the articles' order |
| Articles.CategoryNamesSnoc | src/pages/Articles.tsx:24-26 | one more article appends its category name, or nothing when it has no category, so the names follow the articles in order |
| Articles.Categories | src/pages/Articles.tsx:23-27 | the buttons are exactly the category names of the articles, each once |
| Articles.CategoriesInFirstAppearanceOrder | src/pages/Articles.tsx:23-27 | the buttons come in the order in which their names first occur in the article-ordered name list of `Articles.CategoryNamesSnoc` |
| Seqs.Distinct | src/pages/Articles.tsx:23 | `Array.from(new Set(s))` holds the same elements as `s`, none twice |
| Seqs.DistinctFirstAppearance | src/pages/Articles.tsx:23 | de-duplication keeps each element where it first occurs, so first occurrences stay in order |
| Seqs.FirstIndex | src/pages/Articles.tsx:23 | the first position of an element: it is there, and not earlier |
| Articles.FilterBarShownIff | src/pages/Articles.tsx:86 | the filter bar is shown exactly when some article has a category |
| Seqs.Filter | src/pages/Articles.tsx:43 | `filter` keeps exactly the elements the predicate admits and never grows the list |
| Seqs.FilterAppend | src/pages/Articles.tsx:43 | filtering works piecewise, so it keeps the input order |
| Seqs.FilterMultiset | src/pages/Articles.tsx:43 | filtering never adds or repeats an element |
| Seqs.FilterCount | src/pages/Author.tsx:39-41 | each admitted element keeps all its copies, each rejected element loses all of them |
| Articles.InsertPermutes | src/pages/Articles.tsx:42 | one insertion step of the stable sort adds the element and loses nothing |
| Articles.Insert | src/pages/Articles.tsx:42 | one insertion step of the stable sort adds exactly one article; where it lands is `Articles.InsertAt` |
| Articles.NewestFirst | src/pages/Articles.tsx:42 | the stable newest-first sort keeps the length; its order, permutation and stability are `Articles.NewestFirstIsOrdered`, `Articles.NewestFirstPermutes` and `Articles.NewestFirstStable` |
| Articles.NewestFirstPermutes | src/pages/Articles.tsx:42 | the newest-first sort is a permutation of its input |
| Articles.InsertKeepsOrder | src/pages/Articles.tsx:42 | inserting into a newest-first list keeps it newest-first |
| Articles.NewestFirstIsOrdered | src/pages/Articles.tsx:42 | the sort yields non-increasing `publishedAt` |
| Articles.InsertAt | src/pages/Articles.tsx:42 | an article goes right after the last one at least as recent, ahead of every strictly older one |
| Articles.FilterInsert | src/pages/Articles.tsx:43-44 | filtering after an insertion is inserting into the filtered list, or nothing when the article is rejected |
| Articles.FilterNewestFirst | src/pages/Articles.tsx:43-44 | filtering the sorted list equals sorting the filtered list, for any filter |
| Articles.NewestFirstOfOrdered | src/pages/Articles.tsx:42 | sorting a newest-first list leaves it unchanged |
| Articles.NewestFirstIdempotent | src/pages/Articles.tsx:42 | sorting twice is sorting once |
| Articles.NewestFirstStable | src/pages/Articles.tsx:42 | articles with the same `publishedAt` keep their input order |
| Articles.SelectIsSortedPermutation | src/pages/Articles.tsx:41-44 | the shown list is newest-first and a permutation of all articles ('all') or of the category's articles |
| Articles.Select | src/pages/Articles.tsx:41-44 | the shown list is as long as the admitted articles, never longer than the store; its contents are `Articles.SelectMembership` and `Articles.SelectIsSortedPermutation` |
| Articles.SelectMembership | src/pages/Articles.tsx:41-44 | the shown list holds exactly the articles the filter admits, and nothing else |
| Articles.SelectStable | src/pages/Articles.tsx:41-44 | shown articles with equal `publishedAt` appear in stored order |
| Articles.SelectEmptyIff | src/pages/Articles.tsx:129-152 | the list is empty exactly when no article is admitted: no articles at all for 'all', none of that category otherwise |
| Articles.SortedStoreSelectsTheSame | src/pages/Articles.tsx:42-44 | after the in-place sort of the store, every filter shows the same list as before |
| Articles.ArticleGrid | src/pages/Articles.tsx:129-152 | the message shows exactly when the list is empty; otherwise one card per shown article, the first at 0 ms and each next one 100 ms later |
| Reveal.Schedule | src/pages/Articles.tsx:174 | a list's delays: as many as items, the first is the base, each next exactly one step later |
| Reveal.Delay | src/pages/Articles.tsx:174 | the item at position 0 waits the base, and each next position one step more |
| Articles.InsertIntoPrefix | src/pages/Articles.tsx:42 | one pass of the in-place sort inserts `a[i]` into the sorted `a[..i]` and leaves the rest of the array as it was |
| Articles.SortNewestFirst | src/pages/Articles.tsx:42 | the array afterwards holds the stable newest-first sort of its old contents |
| Articles.ArticlesPage.constructor | src/pages/Articles.tsx:20-29 | the loaded page stores the articles, their category list, and the 'all' filter |
| Articles.ArticlesPage.SetFilter | src/pages/Articles.tsx:96-111 | a filter button makes its value the active filter |
| Articles.ArticlesPage.FilteredArticles | src/pages/Articles.tsx:41-44 | the shown list is the selection from the stored articles; 'all' leaves the store sorted in place, a category leaves it untouched |
| MediaUrl.Resolve | src/pages/Album.tsx:33-35 | an `http` reference is kept; any other is the origin followed by the reference, with nothing added; the reference is always the result's suffix |
| MediaUrl.IsAbsolute | src/pages/Album.tsx:34 | a reference counts as absolute exactly when its first four characters are `http`, so `httpdocs/a.png` counts too |
| MediaUrl.ResolveIdempotent | src/pages/Author.tsx:55-57 | resolving again changes nothing exactly when the reference was absolute, the origin is empty, or origin plus reference is absolute |
| MediaUrl.AbsoluteOriginGivesAbsoluteUrls | src/pages/Album.tsx:33-35 | with an absolute origin every resolved address is absolute, and resolving is idempotent |
| Gallery.Tier | src/pages/Gallery.tsx:83-86 | the tier is a truthy medium url, else a truthy small url, else none |
| Gallery.ImageUrl | src/pages/Gallery.tsx:82-92 | with a tier: origin plus tier, with no absolute test; without one: the resolved own url |
| Gallery.ImageUrlIgnoresThumbnail | src/pages/Gallery.tsx:82-92 | the thumbnail format never changes the address |
| Gallery.AbsoluteTierIsStillPrefixed | src/pages/Gallery.tsx:83-86 | an absolute medium url still gets the origin in front, so the result differs from it |
| Gallery.DisplaySrc | src/pages/Gallery.tsx:159 | an absolute own url is shown as it is, before any tier; the result is absolute or starts with the origin |
| Gallery.DisplaySrcDiffersIff | src/pages/Gallery.tsx:216 | the shown address differs from `getImageUrl` exactly when the own url is absolute, a tier exists, and origin plus tier is not that url |
| Gallery.Pexels | src/pages/Gallery.tsx:43-80 | every built-in image address is absolute |
| Gallery.DisplayImages | src/pages/Gallery.tsx:94 | the fetched images when there are any, else the six built-in ones; never empty |
| Gallery.FallbackImagesShowTheirOwnUrl | src/pages/Gallery.tsx:43-80 | the built-in images have ids 1 to 6 in order and are shown at their own addresses, whatever the origin |
| Gallery.Tiles | src/pages/Gallery.tsx:148-159 | one tile per shown image, in order, with its shown address and name, 100 ms apart |
| Gallery.AfterLoad | src/pages/Gallery.tsx:27-41 | loading ends; a fetch stores its images, a failure stores no images and the failure message |
| Gallery.Render | src/pages/Gallery.tsx:106-186 | spinner exactly while loading; the error exactly when there is an error and no images; otherwise the grid of the shown images |
| Gallery.GridNeverEmpty | src/pages/Gallery.tsx:94-148 | the grid always has tiles; with no images and no error it shows the built-in ones |
| Gallery.LoadOutcomes | src/pages/Gallery.tsx:27-125 | a failure shows its message; an empty fetch shows the built-in images; a non-empty one shows its own |
| Gallery.Lightbox.constructor | src/pages/Gallery.tsx:25 | nothing selected and the scroll never set |
| Gallery.Lightbox.Open | src/pages/Gallery.tsx:96-99 | the image is selected and the scroll is hidden, whatever was open before |
| Gallery.Lightbox.Close | src/pages/Gallery.tsx:101-104 | nothing is selected and the scroll is `auto`, whatever the state before, so closing twice is closing once |
| Gallery.Lightbox.HandleClick | src/pages/Gallery.tsx:196-208 | a thumbnail opens, the backdrop and the close button close, a click in the panel changes nothing; the scroll is locked exactly while an image is selected |
| Gallery.Lightbox.Shown | src/pages/Gallery.tsx:189-227 | the lightbox shows exactly while an image is selected, at that image's shown address with its name |
| Albums.TierOrOwn | src/pages/Album.tsx:146 | `tier?.url \|\| url`: a truthy tier url, else the own url |
| Albums.TileSrc | src/pages/Album.tsx:146 | an absolute medium-or-own url is the tile address unchanged; a relative one gets the origin in front |
| Albums.LightboxSrc | src/pages/Album.tsx:203 | an absolute large-or-own url is the lightbox address unchanged; a relative one gets the origin in front |
| Albums.CoverSrc | src/pages/Album.tsx:100 | an absolute cover url is kept, a relative one gets the origin in front; the `\|\| ''` fallback never applies, and the address is empty only when origin and url both are |
| Albums.TileAndLightboxAgreeWithoutFormats | src/pages/Album.tsx:146-203 | without medium and large, tile and lightbox show the same resolved own url |
| Albums.AbsoluteFormatsAreKept | src/pages/Album.tsx:33-35 | an absolute medium or large url is used unchanged |
| Albums.RelativeFormatsArePrefixed | src/pages/Album.tsx:33-35 | a relative medium or large url gets the origin in front exactly once |
| Albums.CountLabel | src/pages/Album.tsx:125 | the label is exactly as long as the numeral, one space and the noun together |
| Albums.Noun | src/pages/Album.tsx:61 | "photo" exactly for a count of 1, "photos" for every other count |
| Albums.CountLabelReadsBack | src/pages/Album.tsx:61 | the numeral reads back as the count, and the noun is "photo" exactly when the count is 1, else "photos" |
| Text.DecimalString | src/pages/Album.tsx:125 | a number's numeral is a non-empty string of digits with no leading zero: "0" for 0, one digit exactly below 10 |
| Text.DecimalRoundTrip | src/pages/Album.tsx:125 | reading a numeral back gives the number |
| Albums.Title | src/pages/Album.tsx:55 | the selected album's title, else "Albums" |
| Albums.Subtitle | src/pages/Album.tsx:60-63 | the count label and " in this collection" for a selected album, else the collections line |
| Albums.AlbumCards | src/pages/Album.tsx:88-129 | one card per album, in order, with its cover, title and count label, 100 ms apart |
| Albums.PhotoTiles | src/pages/Album.tsx:134-170 | one tile per photo, in order, with its tile address and name, 100 ms apart |
| Albums.Grid | src/pages/Album.tsx:85-172 | album cards exactly when no album is selected, otherwise the selected album's photo tiles |
| Albums.AlbumPage.constructor | src/pages/Album.tsx:13-16 | no albums, loading, nothing selected; the page state is valid |
| Albums.AlbumPage.FinishLoading | src/pages/Album.tsx:18-31 | the one load at mount: loading ends; fetched albums are stored, a failure keeps the list; the state stays valid |
| Albums.AlbumPage.HandleClick | src/pages/Album.tsx:71-195 | only offered clicks: an album card selects, "Back to Albums" clears (also under an open lightbox, since it is a focusable button), a photo opens, backdrop and close button close, a panel click changes nothing; each handler changes one field only, and the state stays valid (the open album is a loaded album; an open photo belongs to a loaded album, and to the open album while there is one) |
| Albums.AlbumPage.Lightbox | src/pages/Album.tsx:177-214 | the lightbox shows exactly while a photo is selected, at its large-or-own address with its name |
| Albums.AlbumPage.Screen | src/pages/Album.tsx:37-220 | the spinner exactly while loading; else the header for the selection, the back button exactly with an open album, the grid and the lightbox |
| Albums.AlbumPage.LightboxPhotoIsInTheGrid | src/pages/Album.tsx:134-203 | in a valid state with an album open, the open photo is one of the tiles under the lightbox, with its name and tile address |
| About.FindIndex | src/pages/About.tsx:52 | the first block with the component name, or none exactly when no block has it |
| About.FindBlock | src/pages/About.tsx:52-54 | `find` gives a block of the list with that component, or nothing exactly when none has it |
| About.FindBlockAfterAppend | src/pages/About.tsx:52-54 | blocks after a match never change what is found |
| RichText.SpanTexts | src/pages/About.tsx:104 | one text per child, in order |
| About.BlockTexts | src/pages/About.tsx:103-105 | every block gives a text, whatever its kind |
| About.BlockText | src/pages/About.tsx:104 | a block's text is empty without children, and otherwise starts with its first span |
| About.BlockTextSnoc | src/pages/About.tsx:104 | one more span adds exactly one space and its text to the end of the block's text |
| About.ParsedContent | src/pages/About.tsx:102-106 | no blocks give "", otherwise the text starts with the first block's text; separators and length are `About.ParsedContentSnoc` and `About.ParsedContentLength` |
| About.ParsedContentSnoc | src/pages/About.tsx:102-106 | one more block adds one blank-line separator and that block's text |
| About.ParsedContentLength | src/pages/About.tsx:102-106 | k blocks give k - 1 separators, empty blocks included |
| About.ParsedContentIgnoresKind | src/pages/About.tsx:103-105 | blocks with the same children give the same text, whatever their kinds |
| About.EmptyBlockKeepsItsSeparators | src/pages/About.tsx:102-106 | a one-span block, an empty block of any kind and another one-span block flatten to the first text, two blank-line separators and the last text ("Hello\n\n\n\nWorld") |
| Text.Concat | src/pages/Author.tsx:66 | concatenation is as long as its parts together |
| Text.JoinLength | src/pages/About.tsx:106 | `join(sep)` of k parts has the parts' length plus k - 1 separators |
| Text.Join | src/pages/About.tsx:106 | no parts give ""; otherwise the join starts with the first part; the separators are `Text.JoinLength` and `Text.JoinSnoc` |
| Text.JoinSnoc | src/pages/About.tsx:106 | joining one more part appends a separator and the part |
| Text.JoinWithoutSeparator | src/pages/Author.tsx:66 | `join('')` is concatenation |
| About.SectionImageUrlAsWritten | src/pages/About.tsx:77 | as written: the origin followed by the image url, or by "undefined" when there is no image, for every origin |
| About.SectionWithoutImageGetsUndefinedAddress | src/pages/About.tsx:77 | a section without an image gets the address `<origin>undefined`: one concrete instance of `About.SectionImageUrlAsWritten`'s `None` case |
| About.SectionImageUrl | src/pages/About.tsx:77 | corrected: an address exactly when the image url is truthy, and then the same as written |
| About.SectionImageUrlAgreesWhenPresent | src/pages/About.tsx:77 | corrected and as-written agree exactly when the image url is truthy |
| About.MemberPhoto | src/pages/About.tsx:87-89 | a photo exactly when its url is truthy: the origin plus that url |
| About.MapTeam | src/pages/About.tsx:83-90 | one card per member, in order, with name, role and bio copied, and the member's photo |
| About.AvatarSrc | src/pages/About.tsx:176 | the photo when truthy, else an address starting with the avatar prefix (its number is `About.AvatarNumbersFromOne`) |
| About.AvatarNumbersFromOne | src/pages/About.tsx:176 | a member without a photo gets exactly the avatar prefix followed by the decimal numeral of its position plus one, which reads back as that number |
| About.MemberPhotoIsShown | src/pages/About.tsx:176 | a member with a photo shows the origin plus the photo url |
| About.MemberCards | src/pages/About.tsx:165-176 | one card per member with its avatar, 100 ms apart |
| About.ValueCards | src/pages/About.tsx:220-226 | one card per value, in order, 100 ms apart |
| About.Render | src/pages/About.tsx:31-96 | the page as written: spinner while loading; the error view exactly for an error or no data, with the error or "About content not found"; else the header, the team cards, a section exactly when a section block exists, holding `ParsedContent` of its content and the as-written image address, and the value cards of the first values block exactly when one exists |
| About.RenderCorrected | src/pages/About.tsx:74-78 | the page with the corrected section image: the same view as `About.Render` except the section picture, which is `About.SectionImageUrl` |
| About.RenderCorrectedDiffersIff | src/pages/About.tsx:74-78 | the corrected page differs from the page as written exactly when a section block is shown whose image url is missing or empty |
| About.AfterLoad | src/pages/About.tsx:15-29 | loading ends; the result is stored, or a failure stores its message |
| About.LoadOutcomes | src/pages/About.tsx:42-46 | a failure shows its message, a null result shows "About content not found", data shows the page |
| Author.AvatarSrc | src/pages/Author.tsx:109 | a present avatar url is resolved; a missing one gives the bare origin |
| Author.MissingAvatarIsTheOrigin | src/pages/Author.tsx:109 | a missing or empty avatar url points at the origin itself |
| Author.ParagraphTextIsConcatenation | src/pages/Author.tsx:66 | a paragraph's text is its children's texts one after the other |
| Author.ParagraphText | src/pages/Author.tsx:66 | a paragraph's text is empty without children, and otherwise starts with its first span |
| Author.RenderBio | src/pages/Author.tsx:59-75 | the placeholder exactly for a missing or empty bio; else one entry per block, with text exactly for paragraph blocks |
| Author.NonParagraphBioRendersNothing | src/pages/Author.tsx:64-74 | a bio of non-paragraph blocks renders nothing, not the placeholder |
| Author.AuthorArticlesAreExactlyTheAuthors | src/pages/Author.tsx:39-41 | exactly the fetched articles with the author's id are kept, each as often as fetched |
| Author.AuthorArticles | src/pages/Author.tsx:39-41 | exactly the fetched articles by the author, never more than were fetched |
| Author.AuthorArticlesKeepFetchOrder | src/pages/Author.tsx:39-41 | the kept articles stay in fetch order |
| Author.AfterLoad | src/pages/Author.tsx:32-53 | loading ends; an author exactly when one was fetched; the author's articles when they were fetched, none otherwise |
| Author.ArticleCards | src/pages/Author.tsx:162-168 | one card per article, in order, at 600 ms plus 100 ms per position |
| Author.Render | src/pages/Author.tsx:77-199 | spinner while loading; "not available" exactly without an author; else the profile with the author's name and email, whose count equals the number of cards |
| Author.PublishedCountAfterLoad | src/pages/Author.tsx:133 | "Articles Published" counts the fetched articles by the author, or 0 when the fetch failed |
| ArticleDetail.ReadingMinutes | src/pages/ArticleDetail.tsx:73 | 0 for no content; otherwise the k with 1000(k-1) < n <= 1000k |
| ArticleDetail.ReadingMinutesIff | src/pages/ArticleDetail.tsx:73 | the reading time is k exactly when the length lies in k's band |
| ArticleDetail.ReadingMinutesMonotone | src/pages/ArticleDetail.tsx:73 | longer content never reads faster |
| ArticleDetail.ReadingTime | src/pages/ArticleDetail.tsx:73 | absent or empty content reads in 0 minutes, other content in at least 1 |
| ArticleDetail.AfterLoad | src/pages/ArticleDetail.tsx:17-32 | one run of the loader from the state it finds: loading ends; without a slug nothing changes; a fetch replaces the article and keeps the error; a failure sets the message and keeps the article |
| ArticleDetail.Replay | src/pages/ArticleDetail.tsx:17-32 | the loader run once per slug change: no runs change nothing; after a run loading is over |
| ArticleDetail.ReplayKeepsTheError | src/pages/ArticleDetail.tsx:17-32 | no run clears an error: it stays set, either the earlier one or the failure message |
| ArticleDetail.ErrorOutlivesLaterLoads | src/pages/ArticleDetail.tsx:17-45 | after a failed load, whatever later slugs and fetches follow, the page shows the failure message |
| ArticleDetail.Render | src/pages/ArticleDetail.tsx:34-140 | error view exactly for an error or no article, with the error or "Article not found"; the badge exactly for a truthy category; the picture exactly with cover media |
| ArticleDetail.NoSlugShowsNotFound | src/pages/ArticleDetail.tsx:20 | without a slug the first run ends on "Article not found" |
| ArticleDetail.LoadOutcomes | src/pages/ArticleDetail.tsx:45-140 | on the first run a failure shows its message, a null article "Article not found", an article the detail with its badge, author, reading time and picture |
| Footer.AfterFetch | src/components/layout/Footer.tsx:12-21 | a result is stored; a null result leaves the state as it was |
| Footer.NullFetchLeavesFooterUnset | src/components/layout/Footer.tsx:15-16 | from nothing, the footer is set exactly when the fetch gave data |
| Footer.Description | src/components/layout/Footer.tsx:40-54 | a paragraph exactly for each paragraph block, one span per child in order, 100 ms apart |
| Footer.DescriptionMatchesBio | src/components/layout/Footer.tsx:49-51 | footer paragraphs sit where the bio's paragraphs sit, and their spans read as the bio's text |
| Footer.RenderLink | src/components/layout/Footer.tsx:97-107 | navigable exactly when the url is truthy; the name is always the text |
| Footer.LinkItems | src/components/layout/Footer.tsx:89-94 | one item per link, in order, 50 ms apart |
| Footer.ColumnViews | src/components/layout/Footer.tsx:83-84 | one column per column, in order, at 200 ms plus 100 ms per position |
| Footer.SocialIcons | src/components/layout/Footer.tsx:58-72 | one icon per social link, in order, 100 ms apart |
| Footer.Render | src/components/layout/Footer.tsx:23-128 | nothing exactly while the footer is unset, else all its parts |
| Footer.NullFetchRendersNothing | src/components/layout/Footer.tsx:23 | a null fetch on a fresh page renders nothing, and a later null fetch keeps what is shown |

## Left out

- Fetching is left out. The `apiService` calls, `async`/`await` and the console logging are
  I/O. Each loader is modelled by what it stores, given the fetch outcome as a value.
- Animation and styling are left out: framer-motion, Tailwind classes, `ReactMarkdown`
  rendering, icons, `HoverImage`, `AnimatedButton`, `MotionDiv` and the
  "reveal once in view" behaviour. Only the delay values are kept.
- The delays are written in seconds in the code (`index * 0.1`). Here they are whole
  milliseconds, because floating point is not modelled.
- Date parsing and formatting are left out. `publishedAt` is the integer that `getTime()`
  gives. Dates that do not parse (a `NaN` comparator) and `toLocaleDateString` are not
  modelled. The same goes for the copyright year at src/components/layout/Footer.tsx:123.
- `document.title` at src/pages/Author.tsx:44 is a DOM side effect and is left out.
- `getArticleCover` and `getArticleCategory` are not part of this model. The detail page's
  badge shows the article's category name, and its picture shows when the article has cover
  media.
- `getLucideIcon` is not part of this model. A social icon is modelled by its link.
- The stores `useUIStore` and `useGalleryStore` are not part of this model. Each page's
  selection is its own state, and nothing is claimed about sharing between pages.
- The Header, Features, Hero, Story and Showcase sections hold no page logic beyond
  presentation, and are left out.
- The spinner and error views of the Articles page (src/pages/Articles.tsx:46-65) are not
  modelled. The Gallery, Album, About, Author, article and Footer pages model theirs.
- Articles.SortNewestFirst: the engine's sorting algorithm is not modelled, only the order
  it must produce. The model sorts by insertion, and the result is fixed as the stable
  newest-first order.
- ArticleDetail.ReadingMinutes: a JavaScript string length counts UTF-16 code units. The
  model counts characters.
- Gallery.Lightbox.HandleClick: the model does not capture that the overlay covers the grid
  while the lightbox is open. A thumbnail click is accepted in any state.

## Findings

| source | as written | input that shows it | evidently intended | confidence | as-written member | corrected member |
|---|---|---|---|---|---|---|
| src/pages/About.tsx:77 | the section image is `baseUrl + section.image?.url`, so a missing image concatenates `undefined` | a section block without an image, origin `https://cms.example.com`, gives `https://cms.example.comundefined` | no image address when the url is missing, as the team photos on the same page do at lines 87-89 | medium; not executed | About.SectionImageUrlAsWritten, About.SectionWithoutImageGetsUndefinedAddress, About.Render | About.SectionImageUrl, About.RenderCorrected, About.RenderCorrectedDiffersIff |
