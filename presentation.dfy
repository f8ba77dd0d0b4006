/** The presentation component as an object: the two state cells it updates
    through setters and functional updates, and the promotion timers it
    schedules. Each handler is proved to perform exactly the transition the
    Reveal module specifies, and to keep the reachability invariant. */
module PresentationView {
  import opened Slides
  import opened Reveal

  class Presentation {
    const slides: seq<Slide>
    var currentSlideIndex: nat
    var revealState: int
    /** Origins of the promotion timers scheduled and not yet fired, oldest first. */
    var pendingPromotions: seq<nat>

    function Snapshot(): (s: State)
      reads this
    {
      State(currentSlideIndex, revealState, pendingPromotions)
    }

    ghost predicate Valid()
      reads this
    {
      Inv(slides, Snapshot())
    }

    constructor (slides: seq<Slide>)
      ensures Valid() && this.slides == slides
      ensures Snapshot() == Mount
    {
      this.slides := slides;
      currentSlideIndex := 0;
      revealState := Initial;
      pendingPromotions := [];
    }

    /** The one-shot timer callback `prev === 1 ? 2 : prev`. */
    method FirePromotion()
      requires Valid()
      modifies this
      ensures Valid()
      ensures Snapshot() == Reveal.FirePromotion(old(Snapshot()))
    {
      StepPreservesInv(slides, Snapshot(), PromotionFires);
      if pendingPromotions != [] {
        pendingPromotions := pendingPromotions[1..];
        if revealState == Revealing {
          revealState := Revealed;
        }
      }
    }

    method GoToNextSlide()
      requires Valid()
      modifies this
      ensures Valid()
      ensures Snapshot() == Reveal.GoToNextSlide(slides, old(Snapshot()))
    {
      if currentSlideIndex >= |slides| - 1 {
        return;
      }
      var nextIndex := currentSlideIndex + 1;
      if slides[nextIndex].video {
        revealState := Revealed;
      } else {
        revealState := Revealing;
        pendingPromotions := pendingPromotions + [nextIndex];
      }
      currentSlideIndex := nextIndex;
    }

    method HandleNext()
      requires Valid()
      modifies this
      ensures Valid()
      ensures Snapshot() == Reveal.HandleNext(slides, old(Snapshot()))
    {
      StepPreservesInv(slides, Snapshot(), Click);
      if currentSlideIndex >= |slides| {
        return;
      }
      var currentSlide := slides[currentSlideIndex];
      if currentSlide.video {
        GoToNextSlide();
        return;
      }
      var hasSecondary := HasSecondary(currentSlide);
      var hasTertiary := HasTertiary(currentSlide);
      if revealState == Initial {
        revealState := Revealing;
        pendingPromotions := pendingPromotions + [currentSlideIndex];
      } else if revealState == Revealing {
        revealState := Revealed;
      } else if revealState == Revealed {
        if hasSecondary {
          revealState := Secondary;
        } else {
          GoToNextSlide();
        }
      } else if revealState == Secondary {
        if hasTertiary {
          revealState := Tertiary;
        } else {
          GoToNextSlide();
        }
      } else {
        GoToNextSlide();
      }
    }

    method HandlePrev()
      requires Valid()
      modifies this
      ensures Valid()
      ensures Snapshot() == Reveal.HandlePrev(slides, old(Snapshot()))
    {
      StepPreservesInv(slides, Snapshot(), KeyDown("ArrowLeft"));
      if revealState == Tertiary {
        revealState := Secondary;
      } else if revealState == Secondary {
        revealState := Revealed;
      } else if revealState == Revealed || revealState == Revealing {
        revealState := Initial;
      } else if currentSlideIndex > 0 {
        var nextIndex := currentSlideIndex - 1;
        var prevSlide := slides[nextIndex];
        if prevSlide.whyThem {
          revealState := Tertiary;
        } else if RestoresSecondary(prevSlide) {
          revealState := Secondary;
        } else {
          revealState := Revealed;
        }
        currentSlideIndex := nextIndex;
      }
    }

    /** The window keydown listener. */
    method HandleKeyPress(key: string)
      requires Valid()
      modifies this
      ensures Valid()
      ensures Snapshot() == HandleKey(slides, old(Snapshot()), key)
    {
      if key == "ArrowRight" {
        HandleNext();
      } else if key == "ArrowLeft" {
        HandlePrev();
      }
    }

    /** The click handler of the whole view. */
    method HandleClick()
      requires Valid()
      modifies this
      ensures Valid()
      ensures Snapshot() == Reveal.HandleNext(slides, old(Snapshot()))
    {
      HandleNext();
    }

    /** The video element's end event routes through the forward handler. */
    method HandleVideoEnd()
      requires Valid()
      modifies this
      ensures Valid()
      ensures Snapshot() == Reveal.HandleNext(slides, old(Snapshot()))
    {
      HandleNext();
    }

    /** Dispatch of one event of the environment. */
    method Dispatch(e: Event)
      requires Valid()
      modifies this
      ensures Valid()
      ensures Snapshot() == Step(slides, old(Snapshot()), e)
    {
      match e
      case Click => HandleClick();
      case KeyDown(key) => HandleKeyPress(key);
      case VideoEnded => HandleVideoEnd();
      case PromotionFires => FirePromotion();
    }
  }
}
