/** The slide reveal state machine of the presentation view, as pure functions
    over its state: the slide index, the reveal phase and the promotion timers
    that have been scheduled and have not fired yet. */
module Reveal {
  import opened Slides

  // The reveal phases, numbered as the component numbers them.
  const Initial: int := 0
  const Revealing: int := 1
  const Revealed: int := 2
  const Secondary: int := 3
  const Tertiary: int := 4

  /** `pending` lists, oldest first, for each outstanding promotion timer the
      slide whose entry scheduled it (the current slide for a step from phase 0,
      the slide being entered for a move to the next slide). All timers share one delay, so
      they fire in the order they were scheduled. The origin is recorded only
      so that properties can talk about it: firing never looks at it. */
  datatype State = State(index: nat, phase: int, pending: seq<nat>)

  /** The state at mount: first slide, initial phase, no timers. */
  const Mount: State := State(0, Initial, [])

  /** The index is that of a slide, or 0 for an empty deck. */
  predicate InRange(deck: seq<Slide>, index: nat) {
    index < |deck| || index == 0
  }

  /** The functional update a promotion timer applies: only Revealing moves. */
  function Promote(phase: int): (p: int)
    ensures p == phase || (phase == Revealing && p == Revealed)
  {
    if phase == Revealing then Revealed else phase
  }

  /** The environment fires the oldest pending promotion timer, if any. */
  function FirePromotion(s: State): (r: State)
    ensures r.index == s.index
  {
    if s.pending == [] then s
    else State(s.index, Promote(s.phase), s.pending[1..])
  }

  /** Move to the following slide, clamped at the last one. A video slide is
      entered already revealed; an image slide starts revealing and schedules a
      promotion. */
  function GoToNextSlide(deck: seq<Slide>, s: State): (r: State)
    requires InRange(deck, s.index)
    ensures InRange(deck, r.index)
  {
    if s.index >= |deck| - 1 then s
    else if deck[s.index + 1].video then State(s.index + 1, Revealed, s.pending)
    else State(s.index + 1, Revealing, s.pending + [s.index + 1])
  }

  /** One forward step: a click, the right arrow key or the end of the video. */
  function HandleNext(deck: seq<Slide>, s: State): (r: State)
    requires InRange(deck, s.index)
    ensures InRange(deck, r.index)
  {
    if s.index >= |deck| then s  // no current slide
    else
      var slide := deck[s.index];
      if slide.video then GoToNextSlide(deck, s)
      else if s.phase == Initial then s.(phase := Revealing, pending := s.pending + [s.index])
      else if s.phase == Revealing then s.(phase := Revealed)
      else if s.phase == Revealed then
        if HasSecondary(slide) then s.(phase := Secondary) else GoToNextSlide(deck, s)
      else if s.phase == Secondary then
        if HasTertiary(slide) then s.(phase := Tertiary) else GoToNextSlide(deck, s)
      else
        // Tertiary, and defensively any other value
        GoToNextSlide(deck, s)
  }

  /** The phase the backward handler restores on the slide it moves back to. */
  function RestoredPhase(slide: Slide): (p: int)
    ensures Revealed <= p <= Tertiary
    ensures p == Tertiary <==> HasTertiary(slide)
  {
    if slide.whyThem then Tertiary
    else if RestoresSecondary(slide) then Secondary
    else Revealed
  }

  /** One backward step: the left arrow key. */
  function HandlePrev(deck: seq<Slide>, s: State): (r: State)
    requires InRange(deck, s.index)
    ensures InRange(deck, r.index)
  {
    if s.phase == Tertiary then s.(phase := Secondary)
    else if s.phase == Secondary then s.(phase := Revealed)
    else if s.phase == Revealed || s.phase == Revealing then s.(phase := Initial)
    else if s.index > 0 then State(s.index - 1, RestoredPhase(deck[s.index - 1]), s.pending)
    else s
  }

  /** The keydown handler: only the two arrow keys touch the reveal state (the
      space bar plays or pauses the video element and changes no state here). */
  function HandleKey(deck: seq<Slide>, s: State, key: string): (r: State)
    requires InRange(deck, s.index)
    ensures InRange(deck, r.index)
    ensures key != "ArrowRight" && key != "ArrowLeft" ==> r == s
  {
    if key == "ArrowRight" then HandleNext(deck, s)
    else if key == "ArrowLeft" then HandlePrev(deck, s)
    else s
  }

  /** Everything that can happen to the machine. */
  datatype Event = Click | KeyDown(key: string) | VideoEnded | PromotionFires

  function Step(deck: seq<Slide>, s: State, e: Event): (r: State)
    requires InRange(deck, s.index)
    ensures InRange(deck, r.index)
  {
    match e
    case Click => HandleNext(deck, s)
    case KeyDown(key) => HandleKey(deck, s, key)
    case VideoEnded => HandleNext(deck, s)
    case PromotionFires => FirePromotion(s)
  }

  function Run(deck: seq<Slide>, s: State, events: seq<Event>): (r: State)
    requires InRange(deck, s.index)
    ensures InRange(deck, r.index)
    decreases |events|
  {
    if events == [] then s
    else Run(deck, Step(deck, s, events[0]), events[1..])
  }

  /** The last phase that forward navigation shows on an image slide before
      it moves on to the next slide. */
  function ExitPhase(slide: Slide): (p: int)
    ensures Revealed <= p <= Tertiary
    ensures p >= Secondary <==> HasSecondary(slide)
  {
    if !HasSecondary(slide) then Revealed
    else if HasTertiary(slide) then Tertiary
    else Secondary
  }

  // ---------------------------------------------------------------------------
  // Reachable states

  /** The phase is a valid ordinal, phase 4 is only on a slide with why-them
      content and phase 3 only on a slide with secondary or why-them content. */
  ghost predicate Inv(deck: seq<Slide>, s: State) {
    InRange(deck, s.index) &&
    Initial <= s.phase <= Tertiary &&
    (s.index < |deck| ==>
      (s.phase == Tertiary ==> HasTertiary(deck[s.index])) &&
      (s.phase == Secondary ==> HasSecondary(deck[s.index]) || HasTertiary(deck[s.index])))
  }

  /** The stronger invariant of forward navigation: phase 3 only with secondary
      content, phase 4 only with both secondary and why-them content. */
  ghost predicate ForwardInv(deck: seq<Slide>, s: State) {
    InRange(deck, s.index) &&
    Initial <= s.phase <= Tertiary &&
    (s.index < |deck| ==>
      (s.phase == Tertiary ==> HasSecondary(deck[s.index]) && HasTertiary(deck[s.index])) &&
      (s.phase == Secondary ==> HasSecondary(deck[s.index])))
  }

  predicate IsForward(e: Event) {
    e != KeyDown("ArrowLeft")
  }

  lemma MountIsReachable(deck: seq<Slide>)
    ensures Inv(deck, Mount) && ForwardInv(deck, Mount)
  {
  }

  lemma StepPreservesInv(deck: seq<Slide>, s: State, e: Event)
    requires Inv(deck, s)
    ensures Inv(deck, Step(deck, s, e))
  {
  }

  lemma StepPreservesForwardInv(deck: seq<Slide>, s: State, e: Event)
    requires ForwardInv(deck, s) && IsForward(e)
    ensures ForwardInv(deck, Step(deck, s, e))
  {
  }

  /** Every state reached by any sequence of events satisfies Inv; in
      particular the index stays in bounds. */
  lemma {:induction false} RunPreservesInv(deck: seq<Slide>, s: State, events: seq<Event>)
    requires Inv(deck, s)
    ensures Inv(deck, Run(deck, s, events))
    decreases |events|
  {
    if events != [] {
      StepPreservesInv(deck, s, events[0]);
      RunPreservesInv(deck, Step(deck, s, events[0]), events[1..]);
    }
  }

  /** Without the left arrow key, phase 3 and 4 are only ever shown on slides
      with the content they reveal. */
  lemma {:induction false} ForwardRunPreservesForwardInv(deck: seq<Slide>, s: State, events: seq<Event>)
    requires ForwardInv(deck, s)
    requires forall i :: 0 <= i < |events| ==> IsForward(events[i])
    ensures ForwardInv(deck, Run(deck, s, events))
    decreases |events|
  {
    if events != [] {
      StepPreservesForwardInv(deck, s, events[0]);
      ForwardRunPreservesForwardInv(deck, Step(deck, s, events[0]), events[1..]);
    }
  }

  lemma ReachableFromMount(deck: seq<Slide>, events: seq<Event>)
    ensures Inv(deck, Run(deck, Mount, events))
    ensures |deck| > 0 ==> Run(deck, Mount, events).index < |deck|
  {
    RunPreservesInv(deck, Mount, events);
  }

  // ---------------------------------------------------------------------------
  // Forward navigation

  /** A video slide ignores the phase: every forward step leaves it. */
  lemma VideoAlwaysAdvances(deck: seq<Slide>, s: State)
    requires s.index < |deck| && deck[s.index].video
    ensures HandleNext(deck, s) == GoToNextSlide(deck, s)
    ensures s.index < |deck| - 1 ==> HandleNext(deck, s).index == s.index + 1
  {
  }

  /** The clamp at the last slide, and the entry phase otherwise. */
  lemma GoToNextSlideSpec(deck: seq<Slide>, s: State)
    requires InRange(deck, s.index)
    ensures s.index + 1 >= |deck| ==> GoToNextSlide(deck, s) == s
    ensures s.index + 1 < |deck| ==>
      var r := GoToNextSlide(deck, s);
      r.index == s.index + 1 &&
      (deck[r.index].video ==> r.phase == Revealed && r.pending == s.pending) &&
      (!deck[r.index].video ==> r.phase == Revealing && r.pending == s.pending + [r.index])
  {
  }

  /** On an image slide, a step from phase 0, 1 or the phase just below the
      exit phase stays on the slide and only raises the phase; the step from the
      exit phase itself leaves the slide. */
  lemma CrossesExactlyAtExit(deck: seq<Slide>, s: State)
    requires ForwardInv(deck, s)
    requires s.index < |deck| - 1 && !deck[s.index].video
    ensures HandleNext(deck, s).index == s.index + 1 <==> s.phase == ExitPhase(deck[s.index])
    ensures HandleNext(deck, s).index == s.index ==>
              HandleNext(deck, s).phase == s.phase + 1
  {
  }

  /** A slide without secondary content is left after exactly three forward
      steps from its initial phase, through Revealing and Revealed only. */
  lemma PlainSlideTakesThreeSteps(deck: seq<Slide>, s: State)
    requires s.index < |deck| - 1
    requires !deck[s.index].video && !HasSecondary(deck[s.index])
    requires s.phase == Initial
    ensures var s1 := HandleNext(deck, s);
            var s2 := HandleNext(deck, s1);
            var s3 := HandleNext(deck, s2);
            s1.index == s.index && s1.phase == Revealing &&
            s2.index == s.index && s2.phase == Revealed &&
            s3.index == s.index + 1
  {
  }

  /** A slide with secondary but no why-them content goes from Revealed to
      Secondary, and from there straight to the next slide. */
  lemma SecondaryThenNextSlide(deck: seq<Slide>, s: State)
    requires s.index < |deck| - 1
    requires !deck[s.index].video && HasSecondary(deck[s.index]) && !HasTertiary(deck[s.index])
    requires s.phase == Revealed
    ensures var s1 := HandleNext(deck, s);
            s1.index == s.index && s1.phase == Secondary &&
            HandleNext(deck, s1).index == s.index + 1
  {
  }

  /** A forward step from Revealing promotes at once and leaves the index. */
  lemma SkipAnimation(deck: seq<Slide>, s: State)
    requires s.index < |deck| && !deck[s.index].video && s.phase == Revealing
    ensures HandleNext(deck, s) == s.(phase := Revealed)
  {
  }

  // ---------------------------------------------------------------------------
  // Promotion timers

  /** Firing a timer changes at most the phase, and only from 1 to 2. */
  lemma FireOnlyPromotesRevealing(s: State)
    ensures FirePromotion(s).index == s.index
    ensures FirePromotion(s).phase != s.phase ==>
              s.phase == Revealing && FirePromotion(s).phase == Revealed
    ensures s.pending != [] ==> FirePromotion(s).pending == s.pending[1..]
  {
  }

  /** The timer callback is idempotent: a second promotion changes no phase. */
  lemma FireIdempotent(s: State)
    ensures Promote(Promote(s.phase)) == Promote(s.phase)
    ensures FirePromotion(FirePromotion(s)).phase == FirePromotion(s).phase
  {
  }

  /** The callback ignores which slide scheduled it. */
  lemma FireIgnoresOrigin(s: State, origin: nat)
    requires s.pending != []
    ensures FirePromotion(s.(pending := [origin] + s.pending[1..])).phase == FirePromotion(s).phase
  {
  }

  /** A step from phase 0 shows phase 1 and schedules one timer; if nothing
      else happens, that timer brings the slide to phase 2. */
  lemma InitialStepSchedulesPromotion(deck: seq<Slide>, s: State)
    requires s.index < |deck| && !deck[s.index].video && s.phase == Initial && s.pending == []
    ensures var s1 := HandleNext(deck, s);
            s1 == s.(phase := Revealing, pending := [s.index]) &&
            FirePromotion(s1) == s.(phase := Revealed, pending := [])
  {
  }

  /** Two quick steps from phase 0: the timer then fires into phase 2 and
      leaves it; only the manual step promoted. */
  lemma SupersededTimerIsNoOp(deck: seq<Slide>, s: State)
    requires s.index < |deck| && !deck[s.index].video && s.phase == Initial
    ensures var s2 := HandleNext(deck, HandleNext(deck, s));
            s2.phase == Revealed && FirePromotion(s2).phase == Revealed &&
            FirePromotion(s2).index == s.index
  {
  }

  /** A timer scheduled on one slide can promote a later slide: on a plain
      image slide three steps reach the next slide with the old timer still
      pending ahead of the new one, and firing it promotes the new slide. */
  lemma StaleTimerPromotesNextSlide(deck: seq<Slide>, s: State)
    requires s.index < |deck| - 1
    requires !deck[s.index].video && !HasSecondary(deck[s.index]) && !deck[s.index + 1].video
    requires s.phase == Initial && s.pending == []
    ensures var t := HandleNext(deck, HandleNext(deck, HandleNext(deck, s)));
            t.index == s.index + 1 && t.phase == Revealing &&
            t.pending == [s.index, s.index + 1] &&
            FirePromotion(t) == State(s.index + 1, Revealed, [s.index + 1])
  {
  }

  /** Retreating to phase 0 does not cancel the timer: after forward, back,
      forward, the first timer to fire is the stale one and it promotes. */
  lemma StaleTimerAfterRetreat(deck: seq<Slide>, s: State)
    requires s.index < |deck| && !deck[s.index].video
    requires s.phase == Initial && s.pending == []
    ensures var t := HandleNext(deck, HandlePrev(deck, HandleNext(deck, s)));
            t.phase == Revealing && t.pending == [s.index, s.index] &&
            FirePromotion(t).phase == Revealed && |FirePromotion(t).pending| == 1
  {
  }

  // ---------------------------------------------------------------------------
  // Backward navigation

  /** Within a slide, retreating undoes an advancing step, except that
      Revealing and Revealed both collapse to Initial. */
  lemma PrevUndoesNextWithinSlide(deck: seq<Slide>, s: State)
    requires InRange(deck, s.index)
    requires HandleNext(deck, s).index == s.index && HandleNext(deck, s).phase != s.phase
    ensures var r := HandlePrev(deck, HandleNext(deck, s));
            r.index == s.index &&
            r.phase == (if s.phase == Revealing then Initial else s.phase)
  {
  }

  /** Retreating steps the phase down within the slide: 4 to 3, 3 to 2, and
      2 or 1 to 0, and never changes the index from a positive phase. */
  lemma PrevWithinSlide(deck: seq<Slide>, s: State)
    requires InRange(deck, s.index) && Revealing <= s.phase <= Tertiary
    ensures HandlePrev(deck, s).index == s.index
    ensures HandlePrev(deck, s).pending == s.pending
    ensures HandlePrev(deck, s).phase ==
              if s.phase <= Revealed then Initial else s.phase - 1
  {
  }

  /** From phase 0, retreating moves to the previous slide at its restored
      phase, which is never below Revealed; at the first slide it is a no-op. */
  lemma PrevAcrossSlides(deck: seq<Slide>, s: State)
    requires InRange(deck, s.index) && s.phase == Initial
    ensures s.index == 0 ==> HandlePrev(deck, s) == s
    ensures s.index > 0 ==>
              HandlePrev(deck, s) == State(s.index - 1, RestoredPhase(deck[s.index - 1]), s.pending) &&
              Revealed <= HandlePrev(deck, s).phase <= Tertiary
  {
  }

  /** Leaving a slide forward and retreating twice returns to that slide at its
      restored phase. */
  lemma RetreatAfterCrossing(deck: seq<Slide>, s: State)
    requires InRange(deck, s.index)
    requires HandleNext(deck, s).index == s.index + 1
    ensures var t := HandlePrev(deck, HandlePrev(deck, HandleNext(deck, s)));
            t.index == s.index && t.phase == RestoredPhase(deck[s.index])
  {
  }

  /** The restored phase is the exit phase of forward navigation exactly when
      why-them content comes with secondary content and, without why-them
      content, the secondary content includes one of the four blocks the
      backward test looks at. */
  lemma RestoredMatchesExit(slide: Slide)
    ensures RestoredPhase(slide) == ExitPhase(slide) <==>
              (HasTertiary(slide) ==> HasSecondary(slide)) &&
              (HasSecondary(slide) && !HasTertiary(slide) ==> RestoresSecondary(slide))
  {
  }

  /** The restored phase can be one the forward handler never shows: retreating
      onto a slide with why-them but no secondary content shows Tertiary, and a
      further retreat shows Secondary although the slide has no secondary
      content. */
  lemma SecondaryWithoutSecondaryContent()
    ensures var slide := Slide(Num(1), image := true, title := true, whyThem := true);
            var other := Slide(Num(2), image := true, title := true);
            var deck := [slide, other];
            var r := Run(deck, Mount, [Click, Click, Click, KeyDown("ArrowLeft"),
                                       KeyDown("ArrowLeft"), KeyDown("ArrowLeft")]);
            r.index == 0 && r.phase == Secondary && !HasSecondary(slide)
  {
  }

  // ---------------------------------------------------------------------------
  // Progress: clicking never stalls before the last slide

  /** n clicks in a row. */
  function Clicks(n: nat): (events: seq<Event>)
    ensures |events| == n && forall i :: 0 <= i < n ==> events[i] == Click
  {
    if n == 0 then [] else [Click] + Clicks(n - 1)
  }

  lemma RunClicks(deck: seq<Slide>, s: State, n: nat)
    requires InRange(deck, s.index) && n > 0
    ensures Run(deck, s, Clicks(n)) == Run(deck, HandleNext(deck, s), Clicks(n - 1))
  {
    assert Clicks(n)[0] == Click;
    assert Clicks(n)[1..] == Clicks(n - 1);
  }

  lemma {:induction false} ClicksAppend(m: nat, n: nat)
    ensures Clicks(m + n) == Clicks(m) + Clicks(n)
    decreases m
  {
    if m > 0 {
      ClicksAppend(m - 1, n);
      assert Clicks(m + n) == [Click] + Clicks(m - 1 + n);
    }
  }

  /** Five units per slide plus the phase: a position in the walk through the deck. */
  function Progress(s: State): (p: int) {
    5 * s.index + s.phase
  }

  /** Under the forward invariant each click before the last slide strictly
      advances the position, and on the last slide it never goes back. */
  lemma ClickProgresses(deck: seq<Slide>, s: State)
    requires ForwardInv(deck, s) && |deck| > 0
    ensures ForwardInv(deck, HandleNext(deck, s))
    ensures s.index < |deck| - 1 ==> Progress(HandleNext(deck, s)) > Progress(s)
    ensures s.index == |deck| - 1 ==>
              HandleNext(deck, s).index == s.index && Progress(HandleNext(deck, s)) >= Progress(s)
  {
    StepPreservesForwardInv(deck, s, Click);
  }

  /** After n clicks the position has advanced by n, or has reached the start
      of the last slide. */
  lemma {:induction false} ClicksMakeProgress(deck: seq<Slide>, s: State, n: nat)
    requires ForwardInv(deck, s) && |deck| > 0
    ensures ForwardInv(deck, Run(deck, s, Clicks(n)))
    ensures Progress(Run(deck, s, Clicks(n))) >=
              if Progress(s) + n <= 5 * (|deck| - 1) then Progress(s) + n else 5 * (|deck| - 1)
    decreases n
  {
    if n > 0 {
      RunClicks(deck, s, n);
      ClickProgresses(deck, s);
      ClicksMakeProgress(deck, HandleNext(deck, s), n - 1);
    }
  }

  /** The machine never stalls: from mount, five clicks per slide bring any
      non-empty deck to its last slide. */
  lemma ClicksReachLastSlide(deck: seq<Slide>)
    requires |deck| > 0
    ensures Run(deck, Mount, Clicks(5 * (|deck| - 1))).index == |deck| - 1
  {
    MountIsReachable(deck);
    ClicksMakeProgress(deck, Mount, 5 * (|deck| - 1));
  }

  /** Running two event sequences one after the other is running their
      concatenation. */
  lemma {:induction false} RunAppend(deck: seq<Slide>, s: State, a: seq<Event>, b: seq<Event>)
    requires InRange(deck, s.index)
    ensures Run(deck, s, a + b) == Run(deck, Run(deck, s, a), b)
    decreases |a|
  {
    if a == [] {
      assert a + b == b;
    } else {
      assert (a + b)[0] == a[0];
      assert (a + b)[1..] == a[1..] + b;
      RunAppend(deck, Step(deck, s, a[0]), a[1..], b);
    }
  }
}
