/** The deck the application ships, transcribed flag by flag, and what the
    reveal state machine does on it. */
module HoveraDeck {
  import opened Slides
  import opened Reveal

  /** The catalog in order: which fields each entry carries. */
  function Deck(): (deck: seq<Slide>) {
    [ Slide(Num(1), image := true, title := true, subtitle := true),
      Slide(Num(2), image := true, title := true, topMessages := true, tools := true),
      Slide(Num(3), image := true, title := true, chart := true),
      Slide(Num(4), image := true, title := true),
      Slide(Name("video"), video := true),
      Slide(Num(5), image := true, title := true, users := true, whyThem := true),
      Slide(Num(6), title := true, chart := true),
      Slide(Num(7), image := true, title := true, pricing := true),
      Slide(Num(8), image := true, title := true, competitors := true),
      Slide(Num(9), image := true, title := true, timeline := true),
      Slide(Num(10), image := true, title := true, founder := true),
      Slide(Num(11), image := true, title := true) ]
  }

  /** Twelve slides; the video is the fifth; only the slide with id 5 has
      why-them content; the first, the fourth, the video and the last slide have
      no secondary content. */
  lemma DeckShape()
    ensures |Deck()| == 12
    ensures forall i :: 0 <= i < 12 ==> (Deck()[i].video <==> i == 4)
    ensures forall i :: 0 <= i < 12 ==> (HasTertiary(Deck()[i]) <==> i == 5)
    ensures forall i :: 0 <= i < 12 ==> (HasSecondary(Deck()[i]) <==> i !in {0, 3, 4, 11})
  {
  }

  /** Starting on the slide with id 3 at phase 0, four clicks show Revealing,
      Revealed and Secondary, and then move to the slide with id 4 at
      Revealing. */
  lemma ChartSlideScenario()
    ensures var s0 := State(2, Initial, []);
            var s1 := HandleNext(Deck(), s0);
            var s2 := HandleNext(Deck(), s1);
            var s3 := HandleNext(Deck(), s2);
            var s4 := HandleNext(Deck(), s3);
            s1 == State(2, Revealing, [2]) &&
            s2 == State(2, Revealed, [2]) &&
            s3 == State(2, Secondary, [2]) &&
            s4 == State(3, Revealing, [2, 3])
  {
  }

  /** Retreating onto the pricing, competitor, timeline and founder slides
      restores Revealed, although forward navigation left each of them from
      Secondary; the slide with id 5 is restored to the Tertiary it was left
      from. */
  lemma NarrowRestoreOnDeck()
    ensures forall i :: 7 <= i <= 10 ==>
              HandlePrev(Deck(), State(i + 1, Initial, [])) == State(i, Revealed, []) &&
              ExitPhase(Deck()[i]) == Secondary
    ensures HandlePrev(Deck(), State(6, Initial, [])) == State(5, Tertiary, [])
    ensures ExitPhase(Deck()[5]) == Tertiary
  {
  }

  /** Clicking through the first two slides. */
  lemma WalkSlides0To1()
    ensures Run(Deck(), State(0, Initial, []), Clicks(6)) ==
              State(2, Revealing, [0, 1, 2])
  {
  }

  /** Clicking through the slides with ids 3 and 4. */
  lemma WalkSlides2To3()
    ensures Run(Deck(), State(2, Revealing, [0, 1, 2]), Clicks(5)) ==
              State(4, Revealed, [0, 1, 2, 3])
  {
  }

  /** Clicking through the video and the slide with id 5. */
  lemma WalkSlides4To5()
    ensures Run(Deck(), State(4, Revealed, [0, 1, 2, 3]), Clicks(5)) ==
              State(6, Revealing, [0, 1, 2, 3, 5, 6])
  {
  }

  /** Clicking through the slides with ids 6 and 7. */
  lemma WalkSlides6To7()
    ensures Run(Deck(), State(6, Revealing, [0, 1, 2, 3, 5, 6]), Clicks(6)) ==
              State(8, Revealing, [0, 1, 2, 3, 5, 6, 7, 8])
  {
  }

  /** Clicking through the slides with ids 8 and 9. */
  lemma WalkSlides8To9()
    ensures Run(Deck(), State(8, Revealing, [0, 1, 2, 3, 5, 6, 7, 8]), Clicks(6)) ==
              State(10, Revealing, [0, 1, 2, 3, 5, 6, 7, 8, 9, 10])
  {
  }

  /** Clicking through the slides with ids 10 and 11. */
  lemma WalkSlides10To11()
    ensures Run(Deck(), State(10, Revealing, [0, 1, 2, 3, 5, 6, 7, 8, 9, 10]), Clicks(4)) ==
              State(11, Revealed, [0, 1, 2, 3, 5, 6, 7, 8, 9, 10, 11])
  {
  }
  /** Thirty-two clicks from mount, with no timer firing, walk through the whole
      deck to the last slide at Revealed; a further click changes nothing. */
  lemma ClickThroughDeck()
    ensures Run(Deck(), Mount, Clicks(32)) ==
              State(11, Revealed, [0, 1, 2, 3, 5, 6, 7, 8, 9, 10, 11])
    ensures HandleNext(Deck(), State(11, Revealed, [0, 1, 2, 3, 5, 6, 7, 8, 9, 10, 11])) ==
              State(11, Revealed, [0, 1, 2, 3, 5, 6, 7, 8, 9, 10, 11])
  {
    var d := Deck();
    WalkSlides0To1();
    WalkSlides2To3();
    WalkSlides4To5();
    WalkSlides6To7();
    WalkSlides8To9();
    WalkSlides10To11();
    ClicksAppend(6, 26);
    RunAppend(d, Mount, Clicks(6), Clicks(26));
    ClicksAppend(5, 21);
    RunAppend(d, State(2, Revealing, [0, 1, 2]), Clicks(5), Clicks(21));
    ClicksAppend(5, 16);
    RunAppend(d, State(4, Revealed, [0, 1, 2, 3]), Clicks(5), Clicks(16));
    ClicksAppend(6, 10);
    RunAppend(d, State(6, Revealing, [0, 1, 2, 3, 5, 6]), Clicks(6), Clicks(10));
    ClicksAppend(6, 4);
    RunAppend(d, State(8, Revealing, [0, 1, 2, 3, 5, 6, 7, 8]), Clicks(6), Clicks(4));
  }
}
