/** The slide descriptors the presentation consumes read-only.

    A slide of the catalog is a JavaScript object whose optional fields the
    presentation only ever tests for truthiness, so each field is modelled by
    one boolean: true when the field is present and truthy (an empty string
    subtitle is falsy, an empty array is truthy). */
module Slides {

  /** Slide ids are numbers, except the demo video slide whose id is a string. */
  datatype SlideId = Num(n: int) | Name(name: string)

  datatype Slide = Slide(
    id: SlideId,
    image: bool := false,
    video: bool := false,
    title: bool := false,
    subtitle: bool := false,
    tools: bool := false,
    topMessages: bool := false,
    chart: bool := false,
    users: bool := false,
    pricing: bool := false,
    competitors: bool := false,
    timeline: bool := false,
    founder: bool := false,
    whyThem: bool := false)

  /** The "secondary" test of the forward handler: any of eight content blocks. */
  predicate HasSecondary(s: Slide) {
    s.tools || s.topMessages || s.chart || s.users ||
    s.pricing || s.competitors || s.timeline || s.founder
  }

  /** The "tertiary" test: the slide carries a why-them block. */
  predicate HasTertiary(s: Slide) {
    s.whyThem
  }

  /** The narrower "secondary" test the backward handler uses when it restores
      the previous slide: only four of the eight content blocks. */
  predicate RestoresSecondary(s: Slide) {
    s.tools || s.topMessages || s.chart || s.users
  }

  /** Whether the text layer renders anything at all for the slide. */
  predicate HasContent(s: Slide) {
    s.title || s.subtitle || s.topMessages || s.tools || s.chart ||
    s.users || s.whyThem || s.pricing || s.competitors
  }

  lemma RestoresSecondaryIsNarrower(s: Slide)
    ensures RestoresSecondary(s) ==> HasSecondary(s)
    ensures HasSecondary(s) && !RestoresSecondary(s) <==>
              !RestoresSecondary(s) && (s.pricing || s.competitors || s.timeline || s.founder)
  {
  }
}
