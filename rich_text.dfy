/** Rich-text documents as the content service delivers them: a list of blocks, each with a
    type and a list of inline spans. Marks on spans do not change their text and are left out. */
module RichText {

  datatype Span = Span(text: string)

  datatype Block = Block(kind: string, children: seq<Span>)

  const Paragraph := "paragraph"

  /** `children.map(child => child.text)` */
  function SpanTexts(children: seq<Span>): (r: seq<string>)
    ensures |r| == |children|
    ensures forall i :: 0 <= i < |children| ==> r[i] == children[i].text
  {
    seq(|children|, i requires 0 <= i < |children| => children[i].text)
  }
}
