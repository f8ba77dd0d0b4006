/** The pure visibility rules of the render: which class each slide's image
    container gets, whether a slide's text layer is rendered, and which class
    its title block gets, as functions of the slide's position, the current
    index and the reveal phase. */
module Render {
  import opened Slides
  import opened Reveal

  datatype Option<T> = None | Some(value: T)

  /** The phase token of the current slide's container. */
  datatype Stage = InitialStage | RevealingStage | RevealedStage

  datatype Placement =
    | CurrentSlide(stage: Stage, darken: bool, moreZoom: bool)
    | PreviousSlide
    | HiddenSlide

  /** `slide-container`, an optional `slide-<id>` class, and the placement. */
  datatype ContainerClass = ContainerClass(idClass: Option<int>, placement: Placement)

  /** The slide ids that have a dedicated container class. */
  function IdClass(id: SlideId): (c: Option<int>)
    ensures c.Some? ==> id.Num? && c.value == id.n && (c.value == 5 || 7 <= c.value <= 11)
  {
    if id == Num(5) || id == Num(7) || id == Num(8) || id == Num(9) ||
       id == Num(10) || id == Num(11)
    then Some(id.n) else None
  }

  function SlideContainerClass(deck: seq<Slide>, index: nat, current: nat, phase: int): (c: ContainerClass)
    requires index < |deck| && current < |deck|
    ensures c.placement == HiddenSlide ==> index > current
  {
    var isSlide4BehindSlide5 := index == 3 && deck[current].id == Num(5);
    var placement :=
      if index == current then
        CurrentSlide(
          if phase == Initial then InitialStage
          else if phase == Revealing then RevealingStage
          else RevealedStage,
          phase == Secondary,
          phase >= Tertiary)
      else if index < current || isSlide4BehindSlide5 then PreviousSlide
      else HiddenSlide;
    ContainerClass(IdClass(deck[index].id), placement)
  }

  /** The text layer of a slide is rendered when it has content and it is the
      current slide past phase 0, or an earlier slide. */
  predicate TextLayerVisible(deck: seq<Slide>, index: nat, current: nat, phase: int)
    requires index < |deck|
    ensures TextLayerVisible(deck, index, current, phase) ==> HasContent(deck[index]) && index <= current
  {
    HasContent(deck[index]) && ((index == current && phase >= Revealing) || index < current)
  }

  /** The class of the title block: "visible", "fade-out" or none. */
  datatype TextClass = TextVisible | TextFadeOut | NoTextClass

  function SlideTextClass(deck: seq<Slide>, index: nat, current: nat, phase: int): (c: TextClass)
    requires index < |deck|
    ensures c == TextVisible ==> index == current && phase >= Revealed
  {
    var slide := deck[index];
    var isCurrent := index == current;
    var isPrevious := index < current;
    if isCurrent && phase == Revealed then TextVisible
    else if (isCurrent && phase >= Secondary && (slide.image || slide.id == Num(6))) || isPrevious then TextFadeOut
    else if isCurrent && phase >= Secondary && !slide.image then TextVisible
    else NoTextClass
  }

  // ---------------------------------------------------------------------------

  /** Exactly the current slide's container is marked current; earlier ones are
      previous, later ones hidden, save slide index 3 while the slide with id 5
      is current. */
  lemma ContainerPlacement(deck: seq<Slide>, index: nat, current: nat, phase: int)
    requires index < |deck| && current < |deck|
    ensures SlideContainerClass(deck, index, current, phase).placement.CurrentSlide? <==> index == current
    ensures index < current ==> SlideContainerClass(deck, index, current, phase).placement == PreviousSlide
    ensures index > current ==>
              (SlideContainerClass(deck, index, current, phase).placement == PreviousSlide <==>
                 index == 3 && deck[current].id == Num(5))
  {
  }

  /** The current container's tokens follow the phase: the stage for phases
      0, 1 and 2 and above, darken exactly at phase 3, more zoom from phase 4. */
  lemma CurrentContainerFollowsPhase(deck: seq<Slide>, current: nat, phase: int)
    requires current < |deck|
    ensures var p := SlideContainerClass(deck, current, current, phase).placement;
            (p.stage == InitialStage <==> phase == Initial) &&
            (p.stage == RevealingStage <==> phase == Revealing) &&
            (p.stage == RevealedStage <==> phase != Initial && phase != Revealing) &&
            (p.darken <==> phase == Secondary) &&
            (p.moreZoom <==> phase >= Tertiary) &&
            !(p.darken && p.moreZoom)
  {
  }

  /** In every reachable state the current container is darkened only on a slide
      with secondary or why-them content and zoomed further only on a slide with
      why-them content; under forward navigation darkening needs secondary
      content. */
  lemma ReachableContainerMatchesContent(deck: seq<Slide>, s: State)
    requires Inv(deck, s) && s.index < |deck|
    ensures var p := SlideContainerClass(deck, s.index, s.index, s.phase).placement;
            (p.darken ==> HasSecondary(deck[s.index]) || HasTertiary(deck[s.index])) &&
            (p.moreZoom ==> HasTertiary(deck[s.index])) &&
            (ForwardInv(deck, s) && p.darken ==> HasSecondary(deck[s.index]))
  {
  }

  /** A later slide's text is never rendered; the current slide's text is
      rendered from phase 1 on, when it has content; an earlier slide's text
      stays rendered. */
  lemma TextLayerByPosition(deck: seq<Slide>, index: nat, current: nat, phase: int)
    requires index < |deck|
    ensures index > current ==> !TextLayerVisible(deck, index, current, phase)
    ensures index == current ==>
              (TextLayerVisible(deck, index, current, phase) <==> HasContent(deck[index]) && phase >= Revealing)
    ensures index < current ==>
              (TextLayerVisible(deck, index, current, phase) <==> HasContent(deck[index]))
  {
  }

  /** The title block of the current slide is shown at phase 2; from phase 3
      on it fades out on image slides and on the slide with id 6, and stays
      shown on any other imageless slide; before phase 2 it has no class. */
  lemma CurrentSlideText(deck: seq<Slide>, current: nat, phase: int)
    requires current < |deck|
    ensures var c := SlideTextClass(deck, current, current, phase);
            var slide := deck[current];
            (c == TextVisible <==>
               phase == Revealed || (phase >= Secondary && !slide.image && slide.id != Num(6))) &&
            (c == TextFadeOut <==> phase >= Secondary && (slide.image || slide.id == Num(6))) &&
            (c == NoTextClass <==> phase < Revealed)
  {
  }

  /** Earlier slides' title blocks fade out; later ones have no class. */
  lemma OtherSlideText(deck: seq<Slide>, index: nat, current: nat, phase: int)
    requires index < |deck| && index != current
    ensures index < current ==> SlideTextClass(deck, index, current, phase) == TextFadeOut
    ensures index > current ==> SlideTextClass(deck, index, current, phase) == NoTextClass
  {
  }

  /** A title block marked visible sits in a rendered text layer whenever the
      slide has content. */
  lemma VisibleTextIsRendered(deck: seq<Slide>, index: nat, current: nat, phase: int)
    requires index < |deck| && HasContent(deck[index])
    requires SlideTextClass(deck, index, current, phase) == TextVisible
    ensures TextLayerVisible(deck, index, current, phase)
  {
  }
}
