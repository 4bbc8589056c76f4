/** The article page: the reading time, and which of the spinner, the error view and the
    article itself is shown. */
module ArticleDetail {
  import opened Wrappers
  import opened Text
  import opened ArticleData

  // ---------------------------------------------------------------------------------------
  // Reading time

  /** `Math.ceil(n / 1000)` for a content length `n`: whole minutes at 1000 characters each. */
  function ReadingMinutes(n: nat): (r: nat)
    ensures n == 0 ==> r == 0
    ensures n > 0 ==> 1000 * (r - 1) < n <= 1000 * r
  {
    (n + 999) / 1000
  }

  /** The reading time is k minutes exactly when the length lies in k's band of 1000. */
  lemma ReadingMinutesIff(n: nat, k: nat)
    ensures ReadingMinutes(n) == k <==> (n == 0 && k == 0) || (n > 0 && 1000 * (k - 1) < n <= 1000 * k)
  {
  }

  /** Longer content never reads faster. */
  lemma ReadingMinutesMonotone(m: nat, n: nat)
    requires m <= n
    ensures ReadingMinutes(m) <= ReadingMinutes(n)
  {
  }

  /** The reading time of an article (line 73): absent content counts as length 0. */
  function ReadingTime(a: Article): (r: nat)
    ensures a.markdownContent.None? || a.markdownContent == Some("") ==> r == 0
    ensures Truthy(a.markdownContent) ==> r >= 1 && r == ReadingMinutes(|a.markdownContent.value|)
  {
    ReadingMinutes(|a.markdownContent.GetOr("")|)
  }

  // ---------------------------------------------------------------------------------------
  // Loading and the view

  /** What the fetch by slug gave: an article (possibly null), or a failure. */
  datatype Fetch = Fetched(article: Option<Article>) | Failed

  datatype PageState = PageState(loading: bool, error: Option<string>, article: Option<Article>)

  const LoadErrorText := "Failed to load article. Please try again later."
  const NotFoundText := "Article not found"

  /** The state on mount (lines 13-15): loading, no error, no article. */
  const Initial := PageState(true, None, None)

  /** One run of the loader (lines 17-32), from the state it finds. The effect runs again
      whenever the slug changes, and no run resets anything first: without a truthy slug it
      returns before fetching, yet the `finally` still ends loading; a fetch stores the
      article and leaves an earlier error in place; a failure stores its message and leaves
      the earlier article in place. */
  function AfterLoad(prev: PageState, slug: Option<string>, f: Fetch): (s: PageState)
    ensures !s.loading
    ensures !Truthy(slug) ==> s.error == prev.error && s.article == prev.article
    ensures Truthy(slug) && f.Fetched? ==> s.error == prev.error && s.article == f.article
    ensures Truthy(slug) && f.Failed? ==> s.error == Some(LoadErrorText) && s.article == prev.article
  {
    if !Truthy(slug) then prev.(loading := false)
    else match f
      case Fetched(a) => prev.(loading := false, article := a)
      case Failed => prev.(loading := false, error := Some(LoadErrorText))
  }

  datatype View =
    | Spinner
    | ErrorView(text: string)
    | Detail(article: Article, categoryBadge: Option<string>, showsAuthor: bool,
             readingMinutes: nat, showsCover: bool)

  /** The page (lines 34-140): the error view when there is an error or no article, with the
      error's text or "Article not found"; else the article, with the category badge only for
      a truthy category (line 92) and the picture only when there is cover media (line 127). */
  function Render(s: PageState): (v: View)
    ensures s.loading <==> v.Spinner?
    ensures v.ErrorView? <==> !s.loading && (Truthy(s.error) || s.article.None?)
    ensures v.ErrorView? ==> v.text == if Truthy(s.error) then s.error.value else NotFoundText
    ensures v.Detail? ==> s.article == Some(v.article)
    ensures v.Detail? ==> (v.categoryBadge.Some? <==> Truthy(v.article.category))
    ensures v.Detail? && v.categoryBadge.Some? ==> v.categoryBadge == v.article.category
    ensures v.Detail? ==> v.showsCover == v.article.hasCoverMedia && v.showsAuthor == v.article.authorId.Some?
    ensures v.Detail? ==> v.readingMinutes == ReadingTime(v.article)
  {
    if s.loading then Spinner
    else if Truthy(s.error) || s.article.None? then
      ErrorView(if Truthy(s.error) then s.error.value else NotFoundText)
    else
      var a := s.article.value;
      Detail(a, if Truthy(a.category) then a.category else None, a.authorId.Some?, ReadingTime(a), a.hasCoverMedia)
  }

  /** Without a slug nothing is fetched, and the page ends on "Article not found" whatever
      the fetch would have given. */
  lemma NoSlugShowsNotFound(slug: Option<string>, f: Fetch)
    requires !Truthy(slug)
    ensures Render(AfterLoad(Initial, slug, f)) == ErrorView(NotFoundText)
  {
  }

  /** On the first run, a fetched article is shown; a null one or a failure shows the
      matching message. */
  lemma LoadOutcomes(slug: string, f: Fetch)
    requires slug != ""
    ensures f.Failed? ==> Render(AfterLoad(Initial, Some(slug), f)) == ErrorView(LoadErrorText)
    ensures f.Fetched? && f.article.None? ==> Render(AfterLoad(Initial, Some(slug), f)) == ErrorView(NotFoundText)
    ensures f.Fetched? && f.article.Some? ==> Render(AfterLoad(Initial, Some(slug), f)) == Detail(
      f.article.value,
      if Truthy(f.article.value.category) then f.article.value.category else None,
      f.article.value.authorId.Some?, ReadingTime(f.article.value), f.article.value.hasCoverMedia)
  {
  }

  /** The state after the loader has run once per slug in `slugs`, with the matching fetch
      results. */
  function Replay(prev: PageState, slugs: seq<Option<string>>, fs: seq<Fetch>): (s: PageState)
    requires |slugs| == |fs|
    ensures |slugs| > 0 || !prev.loading ==> !s.loading
    ensures |slugs| == 0 ==> s == prev
    decreases |slugs|
  {
    if |slugs| == 0 then prev
    else Replay(AfterLoad(prev, slugs[0], fs[0]), slugs[1..], fs[1..])
  }

  /** Once a load has failed, the error stays: whatever later slugs the page is sent to and
      whatever their fetches give, the page shows the failure message. */
  lemma ErrorOutlivesLaterLoads(prev: PageState, slugs: seq<Option<string>>, fs: seq<Fetch>)
    requires |slugs| == |fs|
    requires !prev.loading && prev.error == Some(LoadErrorText)
    ensures Render(Replay(prev, slugs, fs)) == ErrorView(LoadErrorText)
  {
    ReplayKeepsTheError(prev, slugs, fs);
  }

  /** No run of the loader clears an error. */
  lemma {:induction false} ReplayKeepsTheError(prev: PageState, slugs: seq<Option<string>>, fs: seq<Fetch>)
    requires |slugs| == |fs|
    requires Truthy(prev.error)
    ensures Replay(prev, slugs, fs).error.Some? && Replay(prev, slugs, fs).error.value != ""
    ensures Replay(prev, slugs, fs).error == prev.error || Replay(prev, slugs, fs).error == Some(LoadErrorText)
    decreases |slugs|
  {
    if |slugs| > 0 {
      ReplayKeepsTheError(AfterLoad(prev, slugs[0], fs[0]), slugs[1..], fs[1..]);
    }
  }
}
