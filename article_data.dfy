/** An article as the content service delivers it, reduced to the fields the pages decide on. */
module ArticleData {
  import opened Wrappers

  datatype Article = Article(
    id: int,
    slug: string,
    /** The instant `new Date(publishedAt).getTime()` gives. */
    publishedAt: int,
    /** The name of the article's category, when it has one. */
    category: Option<string>,
    /** The id of the article's author, when it has one. */
    authorId: Option<int>,
    markdownContent: Option<string>,
    hasCoverMedia: bool)
}
