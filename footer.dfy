/** The site footer: nothing until its data has loaded, then the brand, the description
    paragraphs, the social icons and the link columns. */
module Footer {
  import opened Wrappers
  import opened Text
  import opened RichText
  import Reveal
  import Author

  datatype SocialLink = SocialLink(id: int, platform: string, url: string)

  datatype FooterLink = FooterLink(id: int, name: string, url: Option<string>)

  datatype Column = Column(id: int, title: string, links: seq<FooterLink>)

  datatype FooterData = FooterData(
    text: string,
    description: seq<Block>,
    socialLinks: seq<SocialLink>,
    columns: seq<Column>)

  // ---------------------------------------------------------------------------------------
  // Load guard

  /** The state after the fetch resolves (lines 12-21): a result is stored, a null result
      leaves the state as it was. */
  function AfterFetch(current: Option<FooterData>, fetched: Option<FooterData>): (r: Option<FooterData>)
    ensures fetched.Some? ==> r == fetched
    ensures fetched.None? ==> r == current
  {
    if fetched.Some? then fetched else current
  }

  /** Starting from nothing, the footer is set exactly when the fetch gave data. */
  lemma NullFetchLeavesFooterUnset(fetched: Option<FooterData>)
    ensures AfterFetch(None, fetched).Some? <==> fetched.Some?
  {
  }

  // ---------------------------------------------------------------------------------------
  // Description

  /** A paragraph of the description: one span per child, in order. */
  datatype ParagraphView = ParagraphView(spans: seq<string>, delayMs: nat)

  /** The description (lines 40-54): a paragraph for each `paragraph` block, nothing for a
      block of another type; the paragraph of block `i` is delayed by 100 ms per position. */
  function Description(blocks: seq<Block>): (r: seq<Option<ParagraphView>>)
    ensures |r| == |blocks|
    ensures forall i :: 0 <= i < |r| ==> (r[i].Some? <==> blocks[i].kind == Paragraph)
    ensures forall i :: 0 <= i < |r| && r[i].Some? ==>
      r[i].value.spans == SpanTexts(blocks[i].children) &&
      r[i].value.delayMs == Reveal.Delay(0, Reveal.DescriptionStep, i)
  {
    seq(|blocks|, i requires 0 <= i < |blocks| =>
      if blocks[i].kind == Paragraph
      then Some(ParagraphView(SpanTexts(blocks[i].children), Reveal.Delay(0, Reveal.DescriptionStep, i)))
      else None)
  }

  /** The footer and the author bio show the same blocks and the same text: the spans of a
      footer paragraph, read one after the other, are the bio's paragraph text. */
  lemma DescriptionMatchesBio(blocks: seq<Block>)
    requires |blocks| > 0
    ensures var d, bio := Description(blocks), Author.RenderBio(Some(blocks));
      bio.Paragraphs? && |d| == |bio.items| &&
      forall i :: 0 <= i < |d| ==> (d[i].Some? <==> bio.items[i].Some?)
    ensures var d, bio := Description(blocks), Author.RenderBio(Some(blocks));
      forall i :: 0 <= i < |d| && d[i].Some? ==> Concat(d[i].value.spans) == bio.items[i].value
  {
    forall i | 0 <= i < |blocks| && blocks[i].kind == Paragraph
      ensures Concat(SpanTexts(blocks[i].children)) == Author.ParagraphText(blocks[i])
    {
      Author.ParagraphTextIsConcatenation(blocks[i]);
    }
  }

  // ---------------------------------------------------------------------------------------
  // Links

  datatype RenderedLink = Navigable(target: string, caption: string) | PlainText(caption: string)

  /** A link (lines 97-107): navigable exactly when its url is truthy, else its name as
      plain text. */
  function RenderLink(link: FooterLink): (r: RenderedLink)
    ensures r.Navigable? <==> Truthy(link.url)
    ensures r.Navigable? ==> r.target == link.url.value
    ensures r.caption == link.name
  {
    if Truthy(link.url) then Navigable(link.url.value, link.name) else PlainText(link.name)
  }

  datatype LinkItem = LinkItem(link: RenderedLink, delayMs: nat)

  datatype ColumnView = ColumnView(title: string, delayMs: nat, links: seq<LinkItem>)

  /** The links of a column, 50 ms apart (line 94). */
  function LinkItems(links: seq<FooterLink>): (r: seq<LinkItem>)
    ensures |r| == |links|
    ensures forall i :: 0 <= i < |r| ==> r[i].link == RenderLink(links[i]) && r[i].delayMs == 50 * i
  {
    seq(|links|, i requires 0 <= i < |links| =>
      LinkItem(RenderLink(links[i]), Reveal.Delay(0, Reveal.FooterLinkStep, i)))
  }

  /** The columns, the first after 200 ms and each next one 100 ms later (line 84). */
  function ColumnViews(columns: seq<Column>): (r: seq<ColumnView>)
    ensures |r| == |columns|
    ensures forall i :: 0 <= i < |r| ==>
      r[i].title == columns[i].title && r[i].links == LinkItems(columns[i].links) &&
      r[i].delayMs == 200 + 100 * i
  {
    seq(|columns|, i requires 0 <= i < |columns| =>
      ColumnView(columns[i].title, Reveal.Delay(Reveal.FooterColumnBase, Reveal.FooterColumnStep, i),
                 LinkItems(columns[i].links)))
  }

  // ---------------------------------------------------------------------------------------
  // The footer

  datatype SocialIcon = SocialIcon(link: SocialLink, delayMs: nat)

  datatype View =
    | Nothing
    | Shown(brand: string, description: seq<Option<ParagraphView>>, socials: seq<SocialIcon>,
            columns: seq<ColumnView>)

  /** The social icons, 100 ms apart (line 72). */
  function SocialIcons(links: seq<SocialLink>): (r: seq<SocialIcon>)
    ensures |r| == |links|
    ensures forall i :: 0 <= i < |r| ==> r[i].link == links[i] && r[i].delayMs == 100 * i
  {
    seq(|links|, i requires 0 <= i < |links| => SocialIcon(links[i], Reveal.Delay(0, Reveal.SocialIconStep, i)))
  }

  /** The footer (lines 23-128): nothing until the data is set, then all of its parts. */
  function Render(footer: Option<FooterData>): (v: View)
    ensures v.Nothing? <==> footer.None?
    ensures v.Shown? ==> v.brand == footer.value.text
    ensures v.Shown? ==> v.description == Description(footer.value.description)
    ensures v.Shown? ==> v.socials == SocialIcons(footer.value.socialLinks)
    ensures v.Shown? ==> v.columns == ColumnViews(footer.value.columns)
  {
    match footer
    case None => Nothing
    case Some(d) =>
      Shown(d.text, Description(d.description), SocialIcons(d.socialLinks), ColumnViews(d.columns))
  }

  /** A null fetch on a fresh page renders nothing; once data is shown, a later null fetch
      keeps it. */
  lemma NullFetchRendersNothing(current: Option<FooterData>)
    ensures Render(AfterFetch(None, None)) == Nothing
    ensures Render(AfterFetch(current, None)) == Render(current)
  {
  }
}
