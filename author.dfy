/** The Author page: the avatar address, the bio rendered from its rich-text blocks, and the
    list of the author's articles. */
module Author {
  import opened Wrappers
  import opened Text
  import opened Seqs
  import opened MediaUrl
  import opened RichText
  import opened ArticleData
  import Reveal

  datatype AuthorData = AuthorData(
    id: int,
    name: string,
    email: string,
    avatarUrl: Option<string>,
    bio: Option<seq<Block>>)

  // ---------------------------------------------------------------------------------------
  // Avatar

  /** The avatar (line 109): `getImageUrl(author.avatar?.url ?? '')`. Only a missing url is
      replaced by the empty string; an empty url stays empty. */
  function AvatarSrc(baseUrl: string, a: AuthorData): (r: string)
    ensures a.avatarUrl.Some? ==> r == Resolve(baseUrl, a.avatarUrl.value)
    ensures a.avatarUrl.None? ==> r == baseUrl
  {
    Resolve(baseUrl, a.avatarUrl.GetOr(""))
  }

  /** Without an avatar, and with an empty one, the image points at the bare origin. */
  lemma MissingAvatarIsTheOrigin(baseUrl: string, a: AuthorData)
    requires a.avatarUrl == None || a.avatarUrl == Some("")
    ensures AvatarSrc(baseUrl, a) == baseUrl
  {
  }

  // ---------------------------------------------------------------------------------------
  // Bio

  const NoBioText := "This author has not provided a bio."

  /** What `renderBio` gives: the placeholder, or one entry per bio block, holding the
      paragraph's text, or nothing for a block of another type. */
  datatype Bio = Placeholder | Paragraphs(items: seq<Option<string>>)

  /** A paragraph's text (line 66): its children's texts joined with the empty string. */
  function ParagraphText(b: Block): (r: string)
    ensures |b.children| == 0 ==> r == ""
    ensures |b.children| > 0 ==> StartsWith(r, b.children[0].text)
  {
    Join(SpanTexts(b.children), "")
  }

  /** The text is the children's texts one after the other, with nothing in between. */
  lemma ParagraphTextIsConcatenation(b: Block)
    ensures ParagraphText(b) == Concat(SpanTexts(b.children))
    ensures |ParagraphText(b)| == TotalLength(SpanTexts(b.children))
  {
    JoinWithoutSeparator(SpanTexts(b.children));
  }

  /** `renderBio` (lines 59-75). */
  function RenderBio(bio: Option<seq<Block>>): (r: Bio)
    ensures r.Placeholder? <==> bio.None? || |bio.value| == 0
    ensures r.Paragraphs? ==> |r.items| == |bio.value|
    ensures r.Paragraphs? ==> forall i :: 0 <= i < |r.items| ==>
      (r.items[i].Some? <==> bio.value[i].kind == Paragraph)
    ensures r.Paragraphs? ==> forall i :: 0 <= i < |r.items| ==>
      r.items[i].Some? ==> r.items[i].value == ParagraphText(bio.value[i])
  {
    if bio.None? || |bio.value| == 0 then Placeholder
    else
      var blocks := bio.value;
      Paragraphs(seq(|blocks|, i requires 0 <= i < |blocks| =>
        if blocks[i].kind == Paragraph then Some(ParagraphText(blocks[i])) else None))
  }

  /** A bio made only of non-paragraph blocks renders nothing at all, not the placeholder. */
  lemma NonParagraphBioRendersNothing(blocks: seq<Block>)
    requires |blocks| > 0
    requires forall i :: 0 <= i < |blocks| ==> blocks[i].kind != Paragraph
    ensures RenderBio(Some(blocks)).Paragraphs?
    ensures forall item :: item in RenderBio(Some(blocks)).items ==> item.None?
  {
  }

  // ---------------------------------------------------------------------------------------
  // The author's articles

  function WrittenBy(authorId: int): Article -> bool {
    (a: Article) => a.authorId == Some(authorId)
  }

  /** `allArticles.filter(...)` (lines 39-41): the articles whose author has the author's id. */
  function AuthorArticles(all: seq<Article>, authorId: int): (r: seq<Article>)
    ensures forall a :: a in r <==> a in all && a.authorId == Some(authorId)
    ensures |r| <= |all|
  {
    Filter(all, WrittenBy(authorId))
  }

  /** Exactly the articles by the author are kept, each as often as it was fetched, and
      nothing else. */
  lemma AuthorArticlesAreExactlyTheAuthors(all: seq<Article>, authorId: int)
    ensures forall a :: a in AuthorArticles(all, authorId) <==> a in all && a.authorId == Some(authorId)
    ensures forall a :: multiset(AuthorArticles(all, authorId))[a] ==
                          if a.authorId == Some(authorId) then multiset(all)[a] else 0
    ensures |AuthorArticles(all, authorId)| <= |all|
  {
    forall a ensures multiset(AuthorArticles(all, authorId))[a] ==
      if a.authorId == Some(authorId) then multiset(all)[a] else 0
    {
      FilterCount(all, WrittenBy(authorId), a);
    }
  }

  /** The list keeps the fetch order: the author's articles of a longer fetch are those of
      its first part followed by those of the rest. */
  lemma AuthorArticlesKeepFetchOrder(first: seq<Article>, rest: seq<Article>, authorId: int)
    ensures AuthorArticles(first + rest, authorId) == AuthorArticles(first, authorId) + AuthorArticles(rest, authorId)
  {
    FilterAppend(first, rest, WrittenBy(authorId));
  }

  // ---------------------------------------------------------------------------------------
  // Loading and the page

  datatype AuthorFetch = AuthorFetched(author: Option<AuthorData>) | AuthorFailed

  datatype ArticlesFetch = ArticlesFetched(all: seq<Article>) | ArticlesFailed

  datatype PageState = PageState(loading: bool, author: Option<AuthorData>, articles: seq<Article>)

  /** The loader (lines 32-53). The author is stored first. A failed author fetch leaves no
      author. With a null author the id lookup in the filter throws as soon as an article
      has an author, and otherwise the filter keeps nothing and the title line throws;
      either way the article list stays empty. A failed article fetch leaves the author with
      no articles. Loading always ends. */
  function AfterLoad(af: AuthorFetch, rf: ArticlesFetch): (s: PageState)
    ensures !s.loading
    ensures s.author.Some? <==> af.AuthorFetched? && af.author.Some?
    ensures s.author.Some? ==> s.author == af.author
    ensures s.author.Some? && rf.ArticlesFetched? ==> s.articles == AuthorArticles(rf.all, s.author.value.id)
    ensures s.author.None? || rf.ArticlesFailed? ==> s.articles == []
  {
    match af
    case AuthorFailed => PageState(false, None, [])
    case AuthorFetched(None) => PageState(false, None, [])
    case AuthorFetched(Some(a)) =>
      match rf
      case ArticlesFailed => PageState(false, Some(a), [])
      case ArticlesFetched(all) => PageState(false, Some(a), AuthorArticles(all, a.id))
  }

  datatype ArticleCard = ArticleCard(article: Article, delayMs: nat)

  datatype View =
    | Spinner
    | NotAvailable
    | Profile(avatarSrc: string, name: string, email: string, publishedCount: nat, bio: Bio,
              cards: seq<ArticleCard>)

  /** The article cards, delayed by 600 ms and then 100 ms more per position (line 168). */
  function ArticleCards(articles: seq<Article>): (r: seq<ArticleCard>)
    ensures |r| == |articles|
    ensures forall i :: 0 <= i < |r| ==> r[i].article == articles[i]
    ensures forall i :: 0 <= i < |r| ==> r[i].delayMs == 600 + 100 * i
  {
    seq(|articles|, i requires 0 <= i < |articles| =>
      ArticleCard(articles[i], Reveal.Delay(Reveal.AuthorCardBase, Reveal.AuthorCardStep, i)))
  }

  /** The page (lines 77-199): the spinner while loading, "Author information not available."
      without an author, else the profile; "No articles available from this author yet."
      shows when there are no cards. */
  function Render(baseUrl: string, s: PageState): (v: View)
    ensures s.loading <==> v.Spinner?
    ensures v.NotAvailable? <==> !s.loading && s.author.None?
    ensures v.Profile? ==> v.publishedCount == |s.articles| == |v.cards|
    ensures v.Profile? ==> v.avatarSrc == AvatarSrc(baseUrl, s.author.value)
    ensures v.Profile? ==> v.name == s.author.value.name && v.email == s.author.value.email
    ensures v.Profile? ==> v.bio == RenderBio(s.author.value.bio)
    ensures v.Profile? ==> v.cards == ArticleCards(s.articles)
  {
    if s.loading then Spinner
    else match s.author
      case None => NotAvailable
      case Some(a) =>
        Profile(AvatarSrc(baseUrl, a), a.name, a.email, |s.articles|, RenderBio(a.bio), ArticleCards(s.articles))
  }

  /** After loading, the count of published articles is the number of fetched articles by
      the author. */
  lemma PublishedCountAfterLoad(baseUrl: string, a: AuthorData, all: seq<Article>)
    ensures Render(baseUrl, AfterLoad(AuthorFetched(Some(a)), ArticlesFetched(all))).publishedCount
      == |AuthorArticles(all, a.id)|
    ensures Render(baseUrl, AfterLoad(AuthorFetched(Some(a)), ArticlesFailed)).publishedCount == 0
  {
  }
}
