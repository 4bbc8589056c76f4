/** Staggered entrance delays. The pages write them in seconds (`index * 0.1`,
    `0.6 + index * 0.1`); here they are whole milliseconds. */
module Reveal {

  /** The delay of the item at position `index` of the list being shown. */
  function Delay(baseMs: nat, stepMs: nat, index: nat): (r: nat)
    ensures index == 0 ==> r == baseMs
    ensures index > 0 ==> r == Delay(baseMs, stepMs, index - 1) + stepMs
  {
    baseMs + index * stepMs
  }

  /** The delays of a list of `count` items: the first item waits `baseMs`, and each later
      item waits exactly `stepMs` longer than the one before it. */
  function Schedule(baseMs: nat, stepMs: nat, count: nat): (r: seq<nat>)
    ensures |r| == count
    ensures count > 0 ==> r[0] == baseMs
    ensures forall i :: 1 <= i < count ==> r[i] == r[i - 1] + stepMs
  {
    seq(count, i requires 0 <= i => Delay(baseMs, stepMs, i))
  }

  // The stagger of each call site, as (base, step) in milliseconds.
  const ArticleCardBase := 0        // Articles.tsx:174
  const ArticleCardStep := 100
  const GalleryTileStep := 100      // Gallery.tsx:154
  const AlbumStep := 100            // Album.tsx:95 and Album.tsx:141
  const AuthorCardBase := 600       // Author.tsx:168
  const AuthorCardStep := 100
  const TeamCardStep := 100         // About.tsx:171, and the value cards at About.tsx:226
  const FooterColumnBase := 200     // Footer.tsx:84
  const FooterColumnStep := 100
  const FooterLinkStep := 50        // Footer.tsx:94
  const SocialIconStep := 100       // Footer.tsx:72
  const DescriptionStep := 100      // Footer.tsx:46
}
