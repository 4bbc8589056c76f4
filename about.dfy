/** The About page: its page blocks are looked up by component name, the section's rich text
    is flattened into one markdown string, and the team members are mapped to cards. */
module About {
  import opened Wrappers
  import opened Text
  import opened RichText
  import Reveal

  /** A page block. Which fields mean something depends on `component`: a section carries
      `content` and an optional image url, a values block carries `values`. */
  datatype PageBlock = PageBlock(
    component: string,
    content: seq<Block>,
    imageUrl: Option<string>,
    values: seq<ValueItem>)

  datatype ValueItem = ValueItem(title: string, description: string)

  datatype Member = Member(name: string, role: string, bio: string, photoUrl: Option<string>)

  datatype AboutData = AboutData(title: string, subtitle: string, blocks: seq<PageBlock>, team: seq<Member>)

  const SectionComponent := "about.section"
  const ValuesComponent := "about.values"

  // ---------------------------------------------------------------------------------------
  // Block lookup

  /** The position `blocks.find` stops at: the first block with that component name. */
  function FindIndex(blocks: seq<PageBlock>, component: string): (r: Option<nat>)
    ensures r.None? <==> forall k :: 0 <= k < |blocks| ==> blocks[k].component != component
    ensures r.Some? ==> r.value < |blocks| && blocks[r.value].component == component
    ensures r.Some? ==> forall k :: 0 <= k < r.value ==> blocks[k].component != component
  {
    if |blocks| == 0 then None
    else if blocks[0].component == component then Some(0)
    else
      match FindIndex(blocks[1..], component)
      case None => None
      case Some(i) => Some(i + 1)
  }

  /** `blocks.find(b => b.__component === component)` (lines 52 and 54). */
  function FindBlock(blocks: seq<PageBlock>, component: string): (r: Option<PageBlock>)
    ensures r.None? <==> forall b :: b in blocks ==> b.component != component
    ensures r.Some? ==> r.value in blocks && r.value.component == component
  {
    match FindIndex(blocks, component)
    case None => None
    case Some(i) => Some(blocks[i])
  }

  /** A block that comes after a match never shadows it: appending blocks does not change
      what is found, once something is found. */
  lemma {:induction false} FindBlockAfterAppend(blocks: seq<PageBlock>, more: seq<PageBlock>, component: string)
    requires FindBlock(blocks, component).Some?
    ensures FindBlock(blocks + more, component) == FindBlock(blocks, component)
  {
    if blocks[0].component != component {
      assert (blocks + more)[1..] == blocks[1..] + more;
      FindBlockAfterAppend(blocks[1..], more, component);
    }
  }

  // ---------------------------------------------------------------------------------------
  // Section text

  /** One block's text: its children's texts joined by a single space (line 104). */
  function BlockText(b: Block): (r: string)
    ensures |b.children| == 0 ==> r == ""
    ensures |b.children| > 0 ==> StartsWith(r, b.children[0].text)
  {
    Join(SpanTexts(b.children), " ")
  }

  /** One more span adds a single space and its text to the end of a block's text. */
  lemma BlockTextSnoc(kind: string, children: seq<Span>, s: Span)
    requires |children| > 0
    ensures BlockText(Block(kind, children + [s])) == BlockText(Block(kind, children)) + " " + s.text
  {
    assert SpanTexts(children + [s]) == SpanTexts(children) + [s.text];
    JoinSnoc(SpanTexts(children), s.text, " ");
  }

  /** The texts of all blocks, whatever their kind. */
  function BlockTexts(content: seq<Block>): (r: seq<string>)
    ensures |r| == |content|
    ensures forall i :: 0 <= i < |content| ==> r[i] == BlockText(content[i])
  {
    seq(|content|, i requires 0 <= i < |content| => BlockText(content[i]))
  }

  /** `parsedContent` (lines 102-106): the block texts joined by a blank line. */
  function ParsedContent(content: seq<Block>): (r: string)
    ensures |content| == 0 ==> r == ""
    ensures |content| > 0 ==>
      StartsWith(r, BlockText(content[0]))
  {
    Join(BlockTexts(content), "\n\n")
  }

  /** One more block adds one separator and that block's text. */
  lemma ParsedContentSnoc(content: seq<Block>, b: Block)
    requires |content| > 0
    ensures ParsedContent(content + [b]) == ParsedContent(content) + "\n\n" + BlockText(b)
  {
    assert BlockTexts(content + [b]) == BlockTexts(content) + [BlockText(b)];
    JoinSnoc(BlockTexts(content), BlockText(b), "\n\n");
  }

  /** k blocks give k - 1 separators, empty blocks included. */
  lemma ParsedContentLength(content: seq<Block>)
    requires |content| > 0
    ensures |ParsedContent(content)| == TotalLength(BlockTexts(content)) + 2 * (|content| - 1)
  {
    JoinLength(BlockTexts(content), "\n\n");
  }

  /** The kind of a block is never consulted: blocks with the same children give the same
      text, whatever their kinds. */
  lemma ParsedContentIgnoresKind(c1: seq<Block>, c2: seq<Block>)
    requires |c1| == |c2|
    requires forall i :: 0 <= i < |c1| ==> c1[i].children == c2[i].children
    ensures ParsedContent(c1) == ParsedContent(c2)
  {
    assert BlockTexts(c1) == BlockTexts(c2);
  }

  /** An empty block between two one-span blocks leaves two separators next to each other:
      "Hello", an empty heading and "World" read as "Hello\n\n\n\nWorld". */
  lemma EmptyBlockKeepsItsSeparators(first: string, kind: string, last: string)
    ensures ParsedContent([Block(Paragraph, [Span(first)]), Block(kind, []), Block(Paragraph, [Span(last)])])
      == first + "\n\n" + "\n\n" + last
  {
    var c := [Block(Paragraph, [Span(first)]), Block(kind, []), Block(Paragraph, [Span(last)])];
    SingleSpanBlockText(Paragraph, first);
    SingleSpanBlockText(Paragraph, last);
    var texts := BlockTexts(c);
    assert texts == [first, "", last] by {
      assert |texts| == 3 && texts[0] == first && texts[1] == "" && texts[2] == last;
    }
    JoinOfThree(first, "", last, "\n\n");
  }

  /** A block with one span reads as that span's text. */
  lemma SingleSpanBlockText(kind: string, text: string)
    ensures BlockText(Block(kind, [Span(text)])) == text
  {
    assert SpanTexts([Span(text)]) == [text];
  }

  /** Three parts joined: the separator goes between each pair of neighbours. */
  lemma JoinOfThree(x: string, y: string, z: string, sep: string)
    ensures Join([x, y, z], sep) == x + sep + y + sep + z
  {
    assert [y, z][1..] == [z];
    assert Join([y, z], sep) == y + sep + z;
    assert [x, y, z][1..] == [y, z];
    assert Join([x, y, z], sep) == x + sep + (y + sep + z);
  }

  // ---------------------------------------------------------------------------------------
  // Section image

  /** Line 77 as written: `baseUrl + section.image?.url`. A missing image makes the right
      operand `undefined`, which the string concatenation spells out. */
  function SectionImageUrlAsWritten(baseUrl: string, imageUrl: Option<string>): (r: string)
    ensures StartsWith(r, baseUrl)
    ensures imageUrl.Some? ==> r == baseUrl + imageUrl.value
    ensures imageUrl.None? ==> r == baseUrl + "undefined"
  {
    baseUrl + (match imageUrl case Some(u) => u case None => "undefined")
  }

  /** A section without an image is given the address `<origin>undefined`: one instance of
      the general `None` case of `SectionImageUrlAsWritten`, spelt out with a concrete
      origin. */
  lemma SectionWithoutImageGetsUndefinedAddress()
    ensures SectionImageUrlAsWritten("https://cms.example.com", None) == "https://cms.example.comundefined"
  {
  }

  /** The section image as the team photos on the same page treat a missing url (lines 87-89):
      the origin in front of a present url, and no address at all otherwise. */
  function SectionImageUrl(baseUrl: string, imageUrl: Option<string>): (r: Option<string>)
    ensures r.Some? <==> Truthy(imageUrl)
    ensures r.Some? ==> r.value == SectionImageUrlAsWritten(baseUrl, imageUrl)
  {
    if Truthy(imageUrl) then Some(baseUrl + imageUrl.value) else None
  }

  /** The two agree wherever the image has an address; only the missing image differs. */
  lemma SectionImageUrlAgreesWhenPresent(baseUrl: string, imageUrl: Option<string>)
    ensures SectionImageUrl(baseUrl, imageUrl) == Some(SectionImageUrlAsWritten(baseUrl, imageUrl))
      <==> Truthy(imageUrl)
  {
  }

  // ---------------------------------------------------------------------------------------
  // Team

  datatype TeamCard = TeamCard(name: string, role: string, bio: string, photo: Option<string>)

  /** The photo of a member (lines 87-89): the origin and the photo url, when that url is
      truthy. */
  function MemberPhoto(baseUrl: string, m: Member): (r: Option<string>)
    ensures r.Some? <==> Truthy(m.photoUrl)
    ensures r.Some? ==> r.value == baseUrl + m.photoUrl.value && EndsWith(r.value, m.photoUrl.value)
  {
    if Truthy(m.photoUrl) then Some(baseUrl + m.photoUrl.value) else None
  }

  /** `team.map(...)` (lines 83-90): one card per member, in order, with name, role and bio
      copied unchanged. */
  function MapTeam(baseUrl: string, team: seq<Member>): (r: seq<TeamCard>)
    ensures |r| == |team|
    ensures forall i :: 0 <= i < |team| ==>
      r[i].name == team[i].name && r[i].role == team[i].role && r[i].bio == team[i].bio
    ensures forall i :: 0 <= i < |team| ==> r[i].photo == MemberPhoto(baseUrl, team[i])
  {
    seq(|team|, i requires 0 <= i < |team| =>
      TeamCard(team[i].name, team[i].role, team[i].bio, MemberPhoto(baseUrl, team[i])))
  }

  const AvatarPrefix := "https://i.pravatar.cc/150?img="

  /** The picture of the card at position `index` (line 176): its photo when truthy, else the
      generated avatar numbered `index + 1`. */
  function AvatarSrc(card: TeamCard, index: nat): (r: string)
    ensures Truthy(card.photo) ==> r == card.photo.value
    ensures !Truthy(card.photo) ==> StartsWith(r, AvatarPrefix)
  {
    if Truthy(card.photo) then card.photo.value else AvatarPrefix + DecimalString(index + 1)
  }

  /** A member without a photo gets the avatar named by its position plus one, written in
      decimal without leading zeros, and that number reads back as the position plus
      one, so the first card shows avatar 1. */
  lemma AvatarNumbersFromOne(baseUrl: string, team: seq<Member>, index: nat)
    requires index < |team| && !Truthy(team[index].photoUrl)
    ensures var src := AvatarSrc(MapTeam(baseUrl, team)[index], index);
      src == AvatarPrefix + DecimalString(index + 1) &&
      StartsWith(src, AvatarPrefix) && DecimalValue(src[|AvatarPrefix|..]) == index + 1
  {
    var src := AvatarSrc(MapTeam(baseUrl, team)[index], index);
    assert src[|AvatarPrefix|..] == DecimalString(index + 1);
    DecimalRoundTrip(index + 1);
  }

  /** A member with a photo shows it with the origin in front, whatever the origin. */
  lemma MemberPhotoIsShown(baseUrl: string, team: seq<Member>, index: nat)
    requires index < |team| && Truthy(team[index].photoUrl)
    ensures AvatarSrc(MapTeam(baseUrl, team)[index], index) == baseUrl + team[index].photoUrl.value
  {
  }

  // ---------------------------------------------------------------------------------------
  // The page

  datatype SectionView = SectionView(markdown: string, imageSrc: Option<string>)

  datatype MemberCard = MemberCard(card: TeamCard, avatarSrc: string, delayMs: nat)

  datatype ValueCard = ValueCard(item: ValueItem, delayMs: nat)

  datatype View =
    | Spinner
    | ErrorMessage(text: string)
    | Page(title: string, subtitle: string, section: Option<SectionView>,
           team: seq<MemberCard>, values: Option<seq<ValueCard>>)

  const LoadErrorText := "Failed to load about content. Please try again later."
  const NotFoundText := "About content not found"

  /** The team cards, each delayed by 100 ms per position (line 171). */
  function MemberCards(baseUrl: string, team: seq<Member>): (r: seq<MemberCard>)
    ensures |r| == |team|
    ensures forall i :: 0 <= i < |r| ==> r[i].card == MapTeam(baseUrl, team)[i]
    ensures forall i :: 0 <= i < |r| ==> r[i].avatarSrc == AvatarSrc(r[i].card, i)
    ensures forall i :: 0 <= i < |r| ==> r[i].delayMs == Reveal.Delay(0, Reveal.TeamCardStep, i)
  {
    var cards := MapTeam(baseUrl, team);
    seq(|team|, i requires 0 <= i < |team| =>
      MemberCard(cards[i], AvatarSrc(cards[i], i), Reveal.Delay(0, Reveal.TeamCardStep, i)))
  }

  /** The value cards, each delayed by 100 ms per position (line 226). */
  function ValueCards(values: seq<ValueItem>): (r: seq<ValueCard>)
    ensures |r| == |values|
    ensures forall i :: 0 <= i < |r| ==>
      r[i].item == values[i] && r[i].delayMs == Reveal.Delay(0, Reveal.TeamCardStep, i)
  {
    seq(|values|, i requires 0 <= i < |values| => ValueCard(values[i], Reveal.Delay(0, Reveal.TeamCardStep, i)))
  }

  /** The page as written (lines 31-96): the spinner while loading, the error view when there
      is an error or no data, otherwise the header, the first section block with its text
      and the address of line 77, the team, and the first values block. */
  function Render(baseUrl: string, s: PageState): (v: View)
    ensures s.loading <==> v.Spinner?
    ensures v.ErrorMessage? <==> !s.loading && (Truthy(s.error) || s.data.None?)
    ensures v.ErrorMessage? ==> v.text == if Truthy(s.error) then s.error.value else NotFoundText
    ensures v.Page? ==> s.data.Some? && v.title == s.data.value.title && v.subtitle == s.data.value.subtitle
    ensures v.Page? ==> (v.section.Some? <==> FindBlock(s.data.value.blocks, SectionComponent).Some?)
    ensures v.Page? && v.section.Some? ==>
      var b := FindBlock(s.data.value.blocks, SectionComponent).value;
      v.section.value.markdown == ParsedContent(b.content) &&
      v.section.value.imageSrc == Some(SectionImageUrlAsWritten(baseUrl, b.imageUrl))
    ensures v.Page? ==> (v.values.Some? <==> FindBlock(s.data.value.blocks, ValuesComponent).Some?)
    ensures v.Page? && v.values.Some? ==>
      v.values.value == ValueCards(FindBlock(s.data.value.blocks, ValuesComponent).value.values)
    ensures v.Page? ==> v.team == MemberCards(baseUrl, s.data.value.team)
  {
    if s.loading then Spinner
    else if Truthy(s.error) || s.data.None? then ErrorMessage(if Truthy(s.error) then s.error.value else NotFoundText)
    else
      var d := s.data.value;
      var section := match FindBlock(d.blocks, SectionComponent)
        case Some(b) => Some(SectionView(ParsedContent(b.content), Some(SectionImageUrlAsWritten(baseUrl, b.imageUrl))))
        case None => None;
      var values := match FindBlock(d.blocks, ValuesComponent)
        case Some(b) => Some(ValueCards(b.values))
        case None => None;
      Page(d.title, d.subtitle, section, MemberCards(baseUrl, d.team), values)
  }

  /** The page with the corrected section image: everything as in `Render`, except that the
      section shows a picture only when its image url is truthy. */
  function RenderCorrected(baseUrl: string, s: PageState): (v: View)
    ensures var w := Render(baseUrl, s);
      w.Page? && w.section.Some? ==>
        v.Page? && v.section.Some? &&
        v.section.value.markdown == w.section.value.markdown &&
        v.section.value.imageSrc ==
          SectionImageUrl(baseUrl, FindBlock(s.data.value.blocks, SectionComponent).value.imageUrl) &&
        v == w.(section := v.section)
    ensures var w := Render(baseUrl, s);
      !(w.Page? && w.section.Some?) ==> v == w
  {
    var w := Render(baseUrl, s);
    if w.Page? && w.section.Some? then
      var b := FindBlock(s.data.value.blocks, SectionComponent).value;
      w.(section := Some(w.section.value.(imageSrc := SectionImageUrl(baseUrl, b.imageUrl))))
    else w
  }

  /** The two pages differ exactly when a section block is shown whose image url is missing
      or empty: there the program shows `<origin>undefined` (or the bare origin) and the
      corrected page shows no picture. */
  lemma RenderCorrectedDiffersIff(baseUrl: string, s: PageState)
    ensures RenderCorrected(baseUrl, s) != Render(baseUrl, s) <==>
      !s.loading && !Truthy(s.error) && s.data.Some? &&
      FindBlock(s.data.value.blocks, SectionComponent).Some? &&
      !Truthy(FindBlock(s.data.value.blocks, SectionComponent).value.imageUrl)
  {
    var w := Render(baseUrl, s);
    if w.Page? && w.section.Some? {
      var b := FindBlock(s.data.value.blocks, SectionComponent).value;
      SectionImageUrlAgreesWhenPresent(baseUrl, b.imageUrl);
      if !Truthy(b.imageUrl) {
        assert RenderCorrected(baseUrl, s).section.value.imageSrc != w.section.value.imageSrc;
      }
    }
  }

  /** What the fetch gave: the page data (possibly null), or a failure. */
  datatype Fetch = Fetched(data: Option<AboutData>) | Failed

  /** The page's state: whether it is loading, the error message, and the data. */
  datatype PageState = PageState(loading: bool, error: Option<string>, data: Option<AboutData>)

  /** The loader (lines 15-29): the result is stored, a failure sets the message, and
      loading always ends. */
  function AfterLoad(f: Fetch): (s: PageState)
    ensures !s.loading
    ensures f.Failed? ==> s.error == Some(LoadErrorText) && s.data.None?
    ensures f.Fetched? ==> s.error.None? && s.data == f.data
  {
    match f
    case Fetched(data) => PageState(false, None, data)
    case Failed => PageState(false, Some(LoadErrorText), None)
  }

  /** A failure shows its message, a null result shows "About content not found", and any
      data shows the page. */
  lemma LoadOutcomes(baseUrl: string, f: Fetch)
    ensures f.Failed? ==> Render(baseUrl, AfterLoad(f)) == ErrorMessage(LoadErrorText)
    ensures f.Fetched? && f.data.None? ==> Render(baseUrl, AfterLoad(f)) == ErrorMessage(NotFoundText)
    ensures f.Fetched? && f.data.Some? ==> Render(baseUrl, AfterLoad(f)).Page?
  {
  }
}
