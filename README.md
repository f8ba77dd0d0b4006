# Reveal state machine of the Hovera pitch-deck presenter

This project models the navigation core of the presentation view in
`src/components/Presentation.jsx`. The view holds two state cells:

- `currentSlideIndex`, the current slide;
- `revealState`, the reveal phase: 0 initial, 1 revealing, 2 revealed,
  3 secondary, 4 tertiary.

A click, the right arrow key or the end of the demo video advances the phase
(`handleNext`). When a slide has no content left to reveal, the view moves to
the next slide (`goToNextSlide`). The left arrow key steps back (`handlePrev`).
Entering phase 1 schedules a one-shot timer. When it fires, it promotes phase 1
to phase 2 and leaves every other phase alone. The promotion does not check
which slide scheduled the timer.

Modules:

- `Slides` (slides.dfy): a slide descriptor, one boolean per optional field
  (its JavaScript truthiness). It defines the content tests the handlers use:
  secondary (eight content blocks), tertiary (`whyThem`), the narrower
  secondary test of the backward handler (four blocks), and the text layer's
  "has content" test.
- `Reveal` (reveal.dfy): the machine as pure functions on a `State`. A state is
  the index, the phase and the pending promotion timers. Each timer records the
  slide whose entry scheduled it. All timers share one delay, so
  they fire oldest first. The module also defines the event dispatch, runs of
  events, the reachability invariants and the lemmas.
- `PresentationView` (presentation.dfy): class `Presentation` with the two
  state cells and the timer queue as fields. Its handler methods update the
  fields in place. Each method is proved to perform exactly the `Reveal`
  transition and to keep the object invariant `Reveal.Inv`.
- `Render` (render.dfy): three pure render rules. They give the class of each
  slide's image container, whether a slide's text layer is rendered, and the
  class of its title block.
- `HoveraDeck` (hovera_deck.dfy): the twelve-slide catalog of `src/App.jsx`
  transcribed, with concrete walks through it.

Some consequences of the code are easy to miss:

- Phase 3 is reachable on a slide that has `whyThem` but none of the eight
  secondary blocks. Retreating onto such a slide restores phase 4, and a
  further retreat gives phase 3 (`Reveal.SecondaryWithoutSecondaryContent`).
  So the invariant proved for all runs (`Reveal.Inv`) only ties phase 3 to
  secondary or `whyThem` content. The stronger invariant, phase 3 only with
  secondary content (`Reveal.ForwardInv`), holds for runs without the left
  arrow key. The shipped deck has no such slide.
- The backward handler's comment says it restores the furthest state of the
  previous slide. Its test for phase 3 checks only tools, top messages, chart
  and users, which is narrower than the forward handler's eight blocks. So the
  pricing, competitor, timeline and founder slides come back at phase 2,
  although forward navigation left them from phase 3
  (`Reveal.RestoredMatchesExit`, `HoveraDeck.NarrowRestoreOnDeck`).
- The promotion timer uses a 2500 ms delay. The model has no clock, so the
  delay does not appear.
- The timer callback checks only that the phase is still 1. It does not check
  the slide, and no timer is ever cancelled. So a timer from an earlier slide,
  or from before a retreat, can promote a later phase 1
  (`Reveal.StaleTimerPromotesNextSlide`, `Reveal.StaleTimerAfterRetreat`).

## Model

| member | source | states |
|---|---|---|
| `Slides.HasSecondary` | src/components/Presentation.jsx:22-31 | the definition of the forward handler's secondary test (any of eight blocks); its relation to the backward test is stated by `Slides.RestoresSecondaryIsNarrower` |
| `Slides.HasTertiary` | src/components/Presentation.jsx:32 | the definition of the tertiary test (`whyThem`); what it guarantees about reachable phase 4 is stated by `Reveal.StepPreservesInv` and `Render.ReachableContainerMatchesContent` |
| `Slides.RestoresSecondary` | src/components/Presentation.jsx:98-103 | the definition of the backward handler's four-block restore test; `Slides.RestoresSecondaryIsNarrower` states that it implies the forward test and misses exactly pricing, competitors, timeline and founder |
| `Slides.HasContent` | src/components/Presentation.jsx:282-292 | the definition of the text layer's content test; `Render.TextLayerByPosition` states how it gates the layer |
| `Reveal.HandleNext` | src/components/Presentation.jsx:12-63 | the forward handler keeps the index within the deck (or at 0 for an empty deck) |
| `Reveal.GoToNextSlide` | src/components/Presentation.jsx:65-81 | moving to the next slide keeps the index within the deck |
| `Reveal.HandlePrev` | src/components/Presentation.jsx:83-111 | the backward handler keeps the index within the deck |
| `Reveal.RestoredPhase` | src/components/Presentation.jsx:95-107 | the phase restored on the previous slide is between Revealed and Tertiary, and is Tertiary exactly when that slide has why-them content |
| `Reveal.FirePromotion` | src/components/Presentation.jsx:40-42 | firing a promotion timer never changes the slide index |
| `Reveal.Promote` | src/components/Presentation.jsx:75-77 | the timer's functional update changes a phase only by moving Revealing to Revealed |
| `Reveal.HandleKey` | src/components/Presentation.jsx:115-128 | ArrowRight is the forward handler, ArrowLeft the backward one, and any other key leaves the state unchanged |
| `Reveal.Step` | src/components/Presentation.jsx:114-153 | every event (click, key, video end, timer) keeps the index in range |
| `Reveal.MountIsReachable` | src/components/Presentation.jsx:6-7 | the mount state (index 0, phase 0, no timers) satisfies both invariants |
| `Reveal.StepPreservesInv` | src/components/Presentation.jsx:12-111 | every single event keeps the phase in 0..4, phase 4 on why-them slides only and phase 3 on slides with secondary or why-them content only |
| `Reveal.RunPreservesInv` | src/components/Presentation.jsx:12-111 | every sequence of events keeps that invariant, including the index bound |
| `Reveal.ReachableFromMount` | src/components/Presentation.jsx:6-7 | every state reached from mount satisfies the invariant, and its index is below the deck length for a non-empty deck |
| `Reveal.StepPreservesForwardInv` | src/components/Presentation.jsx:12-81 | any event except ArrowLeft keeps the stronger invariant: phase 3 only with secondary content, phase 4 only with secondary and why-them content |
| `Reveal.ForwardRunPreservesForwardInv` | src/components/Presentation.jsx:12-81 | runs without ArrowLeft keep the stronger invariant |
| `Reveal.VideoAlwaysAdvances` | src/components/Presentation.jsx:16-20 | on a video slide the forward handler moves to the next slide whatever the phase |
| `Reveal.GoToNextSlideSpec` | src/components/Presentation.jsx:66-80 | at the last slide nothing changes; otherwise the index goes up by exactly one, with phase 2 on a video slide, or phase 1 and one new timer on an image slide |
| `Reveal.CrossesExactlyAtExit` | src/components/Presentation.jsx:35-62 | under the forward invariant, an image slide is left exactly from its exit phase (2 without secondary content, 4 with why-them, else 3); any other step raises the phase by one |
| `Reveal.PlainSlideTakesThreeSteps` | src/components/Presentation.jsx:35-51 | a slide without secondary content is left after exactly three steps from phase 0, through phases 1 and 2 only |
| `Reveal.SecondaryThenNextSlide` | src/components/Presentation.jsx:46-57 | with secondary but no why-them content, phase 2 goes to 3 and the next step leaves the slide |
| `Reveal.SkipAnimation` | src/components/Presentation.jsx:43-45 | a step from phase 1 sets phase 2 at once and changes nothing else |
| `Reveal.FireOnlyPromotesRevealing` | src/components/Presentation.jsx:40-42 | a fired timer keeps the index, consumes the oldest timer, and changes the phase only from 1 to 2 |
| `Reveal.FireIdempotent` | src/components/Presentation.jsx:41 | the timer callback is idempotent: a second firing changes no phase |
| `Reveal.FireIgnoresOrigin` | src/components/Presentation.jsx:75-77 | the effect of a timer does not depend on the slide that scheduled it |
| `Reveal.InitialStepSchedulesPromotion` | src/components/Presentation.jsx:35-42 | from phase 0 a step sets phase 1 and schedules one timer, and that timer alone brings the slide to phase 2 |
| `Reveal.SupersededTimerIsNoOp` | src/components/Presentation.jsx:35-45 | after two quick steps from phase 0 the pending timer fires into phase 2 and leaves it there |
| `Reveal.StaleTimerPromotesNextSlide` | src/components/Presentation.jsx:66-77 | a timer scheduled on a plain slide is still pending after that slide is left, and firing it promotes the next slide |
| `Reveal.StaleTimerAfterRetreat` | src/components/Presentation.jsx:84-89 | retreating to phase 0 cancels no timer, so after forward, back, forward the stale timer is the one that promotes |
| `Reveal.PrevUndoesNextWithinSlide` | src/components/Presentation.jsx:84-89 | after a step that raises the phase within a slide, retreating restores the old phase, except that phase 1 collapses to 0 |
| `Reveal.PrevWithinSlide` | src/components/Presentation.jsx:84-89 | retreating from phase 4, 3, 2 or 1 gives 3, 2, 0 or 0 and keeps the index and the timers |
| `Reveal.PrevAcrossSlides` | src/components/Presentation.jsx:90-111 | from phase 0, retreating is a no-op at the first slide; otherwise it moves to the previous slide at its restored phase, which is between 2 and 4 |
| `Reveal.RetreatAfterCrossing` | src/components/Presentation.jsx:90-109 | after leaving a slide forward, two retreats come back to that slide at its restored phase |
| `Reveal.RestoredMatchesExit` | src/components/Presentation.jsx:95-107 | the restored phase equals the forward exit phase if and only if why-them content comes with secondary content and, without why-them content, the secondary content includes tools, top messages, chart or users |
| `Reveal.SecondaryWithoutSecondaryContent` | src/components/Presentation.jsx:96-97 | a run from mount that shows phase 3 on a slide without secondary content |
| `Reveal.ClickProgresses` | src/components/Presentation.jsx:35-80 | under the forward invariant, a click before the last slide strictly advances the position 5 x index + phase; on the last slide it keeps the index and never lowers the phase |
| `Reveal.ClicksMakeProgress` | src/components/Presentation.jsx:35-80 | n clicks advance the position by n, or at least to the start of the last slide, keeping the forward invariant |
| `Reveal.ClicksReachLastSlide` | src/components/Presentation.jsx:65-67 | the machine never stalls: five clicks per slide from mount bring any non-empty deck to its last slide |
| `Slides.RestoresSecondaryIsNarrower` | src/components/Presentation.jsx:98-103 | the backward secondary test implies the forward one, and they differ exactly on the pricing, competitor, timeline and founder blocks |
| `PresentationView.Presentation.constructor` | src/components/Presentation.jsx:6-7 | the view mounts at index 0, phase 0, with no timers and the invariant holding |
| `PresentationView.Presentation.HandleNext` | src/components/Presentation.jsx:12-63 | the state cells are updated exactly as `Reveal.HandleNext` says, and the invariant is kept |
| `PresentationView.Presentation.GoToNextSlide` | src/components/Presentation.jsx:65-81 | the state cells are updated exactly as `Reveal.GoToNextSlide` says, and the object invariant `Reveal.Inv` is kept |
| `PresentationView.Presentation.HandlePrev` | src/components/Presentation.jsx:83-111 | the state cells are updated exactly as `Reveal.HandlePrev` says, and the invariant is kept |
| `PresentationView.Presentation.FirePromotion` | src/components/Presentation.jsx:75-77 | the timer callback updates the state exactly as `Reveal.FirePromotion` says, and the invariant is kept |
| `PresentationView.Presentation.HandleKeyPress` | src/components/Presentation.jsx:115-128 | the keydown listener dispatches the arrow keys and leaves the state alone for other keys |
| `PresentationView.Presentation.HandleClick` | src/components/Presentation.jsx:211 | a click is a forward step |
| `PresentationView.Presentation.HandleVideoEnd` | src/components/Presentation.jsx:153 | the end of the video is a forward step |
| `PresentationView.Presentation.Dispatch` | src/components/Presentation.jsx:114-132 | each event updates the state exactly as `Reveal.Step` says |
| `Render.IdClass` | src/components/Presentation.jsx:222-227 | a `slide-<id>` class is given only to a numeric id, and it is that id, one of 5 and 7 to 11 |
| `Render.SlideContainerClass` | src/components/Presentation.jsx:216-242 | only a slide after the current one is ever hidden; the full placement rules are stated by `Render.ContainerPlacement` and `Render.CurrentContainerFollowsPhase` |
| `Render.TextLayerVisible` | src/components/Presentation.jsx:294-298 | a rendered text layer belongs to a slide with content that is not after the current one; `Render.TextLayerByPosition` gives the exact conditions |
| `Render.SlideTextClass` | src/components/Presentation.jsx:717-729 | a title block is marked visible only on the current slide from phase 2 on; `Render.CurrentSlideText` and `Render.OtherSlideText` give every case |
| `Render.ContainerPlacement` | src/components/Presentation.jsx:216-242 | exactly the current slide's container is current; earlier ones are previous; later ones are hidden, except index 3 while the slide with id 5 is current |
| `Render.CurrentContainerFollowsPhase` | src/components/Presentation.jsx:228-237 | the current container reads initial, revealing or revealed for phase 0, 1 or any other; it darkens exactly at phase 3 and zooms further from phase 4 |
| `Render.ReachableContainerMatchesContent` | src/components/Presentation.jsx:236-237 | in reachable states darkening needs secondary or why-them content (secondary alone under forward navigation), and further zoom needs why-them content |
| `Render.TextLayerByPosition` | src/components/Presentation.jsx:282-298 | a later slide's text is never rendered; the current slide's text is rendered from phase 1 if it has content; an earlier slide's text is rendered if it has content |
| `Render.CurrentSlideText` | src/components/Presentation.jsx:717-729 | the current title block is visible at phase 2; from phase 3 it fades out on image slides and on id 6, and stays visible on other imageless slides; before phase 2 it has no class |
| `Render.OtherSlideText` | src/components/Presentation.jsx:717-729 | earlier slides' title blocks fade out and later ones have no class |
| `Render.VisibleTextIsRendered` | src/components/Presentation.jsx:297 | a title block marked visible on a slide with content sits in a rendered text layer |
| `HoveraDeck.Deck` | src/App.jsx:6-261 | the catalog's entries in order, with the fields each carries; its shape is stated by `HoveraDeck.DeckShape` |
| `HoveraDeck.DeckShape` | src/App.jsx:7-260 | the shipped deck has twelve slides; the video is fifth; only id 5 has why-them content; four slides have no secondary content |
| `HoveraDeck.ChartSlideScenario` | src/components/Presentation.jsx:35-80 | from the slide with id 3 at phase 0, four clicks give phases 1, 2 and 3, then the slide with id 4 at phase 1 |
| `HoveraDeck.NarrowRestoreOnDeck` | src/components/Presentation.jsx:96-107 | on the shipped deck, retreating onto ids 7 to 10 restores phase 2 although they were left from phase 3; id 5 is restored to the phase 4 it was left from |
| `HoveraDeck.ClickThroughDeck` | src/components/Presentation.jsx:12-81 | thirty-two clicks from mount reach the last slide at phase 2 with one timer per image slide entered, and a further click changes nothing |

## Left out

- Brightness detection (`Presentation.jsx` lines 156-204) is left out. It samples canvas pixels, averages luminance in floating point, and depends on image-load events.
- Video playback is left out: autoplay, the autoplay-blocked fallback, and play/pause on the space bar (lines 120-127 and 134-151). These are calls on the media element. In the model the space bar changes no state.
- Listener registration and the React effect plumbing (lines 114-132) are left out. The model dispatches events directly.
- Real timing is left out. The 2500 ms delay is not modelled: a pending timer fires whenever the environment chooses (`PromotionFires`). Only the oldest timer can fire, because all timers share one delay.
- React's update semantics are left out: batching, and effects re-created on every state change. Each handler runs to completion on the latest state. A development-mode double invocation of the index updater in `goToNextSlide`, which would schedule two timers, is not modelled.
- Several render details are left out: the root element's `state-N` and `slide-id-N` classes (lines 207-210), the text wrapper's visible/fading classes (lines 303-309), and the per-block classes and list markup (lines 311-715). The header and footer opacity (lines 742-771) are left out too. The catalog field `isStep` (`src/App.jsx` line 56) is never read by the view and is not modelled. Only the three rules in `Render` are modelled.
- `src/components/HoveraCore.jsx` is not part of this model. It is a three.js scene with trigonometric node placement and floating-point interpolation.
- `src/App.jsx` only supplies the catalog, and its flags are transcribed in `HoveraDeck.Deck`. Notes text, image paths and content strings are not modelled.
- `Presentation.jsx`, `App.jsx` and `HoveraCore.jsx` contain no presenter-notes window, cross-window sync, direct jump to a slide, talk timer, screen/audio/webcam recording or fullscreen mode, so the model has none either.
