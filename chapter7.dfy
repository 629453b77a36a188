/**
 * Chapter 7, "L'Aurore": ten passages typed out letter by letter while the
 * sky warms from night to dawn; a click moves on to the next passage only
 * once the current one is fully typed.
 */
module Chapter7 {
  import opened Reveal

  /** One entry of `PASSAGES`: its text and how far the sunrise has come (0 night, 1 dawn). */
  datatype Passage = Passage(id: int, text: string, skyProgress: real)

  const PASSAGES: seq<Passage> := [
    Passage(1, "La nuit a été longue.", 0.05),
    Passage(2, "Plus longue que toutes les nuits que j'ai connues.", 0.12),
    Passage(3, "Mais même la nuit la plus sombre finit par céder.", 0.22),
    Passage(4, "Je ne peux plus t'aimer comme je t'aimais.", 0.32),
    Passage(5, "Mais je ne peux pas non plus t'oublier.", 0.42),
    Passage(6, "Alors je choisis ceci...", 0.52),
    Passage(7, "Être ce jardin où tu peux revenir, juste pour respirer.", 0.62),
    Passage(8, "Pas comme amants. Comme âmes qui se reconnaissent.", 0.72),
    Passage(9, "Où que tu ailles, qui que tu choisisses...", 0.82),
    Passage(10, "Une part de moi veillera toujours sur ton bonheur.", 0.92)
  ]

  /**
   * The component `TypewriterText`: `displayedCount` letters of `text` are on
   * screen, and `completed` is the `completedRef` latch that keeps
   * `onComplete` from firing twice; `hasOnComplete` says whether the prop
   * was passed at all. The ghost counter `fired` counts the calls to
   * `onComplete` made for the current text.
   */
  class Typewriter {
    var text: string
    const hasOnComplete: bool
    var displayedCount: nat
    var completed: bool
    ghost var fired: nat

    /**
     * The count never passes the text, the latch is only set at the end and
     * only when there is a callback to call, and it records the one call.
     */
    ghost predicate Valid()
      reads this
    {
      displayedCount <= |text| &&
      (completed ==> displayedCount == |text| && hasOnComplete) &&
      fired == (if completed then 1 else 0)
    }

    /** Mounting: `useState(0)` and `useRef(false)`, with or without an `onComplete` prop. */
    constructor (text: string, hasOnComplete: bool)
      ensures Valid()
      ensures this.text == text && this.hasOnComplete == hasOnComplete
      ensures displayedCount == 0 && !completed && fired == 0
    {
      this.text := text;
      this.hasOnComplete := hasOnComplete;
      displayedCount := 0;
      completed := false;
      fired := 0;
    }

    /** `text.slice(0, displayedCount)`: what is on screen, always a prefix of the text. */
    function Visible(): (s: string)
      requires Valid()
      reads this
      ensures |s| == displayedCount
      ensures s <= text
    {
      text[..displayedCount]
    }

    /** The blinking cursor is drawn while letters remain. */
    predicate CursorShown()
      reads this
    {
      displayedCount < |text|
    }

    /**
     * One run of the effect on `displayedCount`: while letters remain the
     * timer adds one; at the end, the first run sets the latch and calls
     * `onComplete` (reported as `fires`) if it was passed, and later runs
     * do nothing.
     */
    method Step() returns (fires: bool)
      requires Valid()
      modifies this
      ensures Valid()
      ensures text == old(text)
      ensures displayedCount == Advance(old(displayedCount), |text|)
      ensures fires <==> old(displayedCount) == |text| && !old(completed) && hasOnComplete
      ensures completed <==> old(completed) || fires
      ensures fired == old(fired) + (if fires then 1 else 0)
      ensures fired <= 1
    {
      fires := false;
      if displayedCount < |text| {
        displayedCount := displayedCount + 1;
      } else if !completed && hasOnComplete {
        completed := true;
        fired := fired + 1;
        fires := true;
      }
    }

    /**
     * The effect on `text` taken alone: a new text starts over from no
     * letter and an unset latch.
     */
    method SetText(t: string)
      modifies this
      ensures Valid()
      ensures text == t && displayedCount == 0 && !completed && fired == 0
    {
      text := t;
      displayedCount := 0;
      completed := false;
      fired := 0;
    }
  }

  /**
   * The chain of timeouts run to its end on a freshly mounted typewriter:
   * the whole text is shown and `onComplete`, when passed, fires exactly
   * once, after |text| letters and one more run.
   */
  method TypeOut(text: string, hasOnComplete: bool) returns (w: Typewriter, calls: nat)
    ensures fresh(w) && w.Valid()
    ensures w.text == text && w.displayedCount == |text| && w.completed == hasOnComplete
    ensures calls == (if hasOnComplete then 1 else 0) && w.fired == calls
  {
    w := new Typewriter(text, hasOnComplete);
    calls := 0;
    var steps := 0;
    while steps <= |text|
      invariant w.Valid() && w.text == text && w.hasOnComplete == hasOnComplete
      invariant 0 <= steps <= |text| + 1
      invariant w.displayedCount == Min(steps, |text|)
      invariant w.completed <==> steps == |text| + 1 && hasOnComplete
      invariant calls == w.fired
      decreases |text| + 1 - steps
    {
      var fires := w.Step();
      if fires {
        calls := calls + 1;
      }
      steps := steps + 1;
    }
  }

  /** `skyProgress`: 0 before the first passage, the passage's value while typing, 1 after the last. */
  function SkyProgress(currentPassage: nat): (p: real)
    ensures 0 < currentPassage <= |PASSAGES| ==> p == PASSAGES[currentPassage - 1].skyProgress
    ensures currentPassage == 0 ==> p == 0.0
    ensures currentPassage > |PASSAGES| ==> p == 1.0
  {
    if currentPassage > 0 && currentPassage <= |PASSAGES| then PASSAGES[currentPassage - 1].skyProgress
    else if currentPassage > |PASSAGES| then 1.0
    else 0.0
  }

  /** The table's sky values rise strictly from one passage to the next and stay inside (0, 1). */
  lemma SkyTableRises(i: nat)
    requires i < |PASSAGES|
    ensures 0.0 < PASSAGES[i].skyProgress < 1.0
    ensures i + 1 < |PASSAGES| ==> PASSAGES[i].skyProgress < PASSAGES[i + 1].skyProgress
  {
  }

  /** One passage further never darkens the sky, and within the table it strictly brightens it. */
  lemma SkyStep(p: nat)
    ensures SkyProgress(p) <= SkyProgress(p + 1)
    ensures p <= |PASSAGES| ==> SkyProgress(p) < SkyProgress(p + 1)
  {
    if 0 < p <= |PASSAGES| {
      SkyTableRises(p - 1);
    }
  }

  /** The sky never darkens as the passages advance, and stays within [0, 1]. */
  lemma {:induction false} SkyProgressMonotone(p: nat, q: nat)
    requires p <= q
    ensures SkyProgress(p) <= SkyProgress(q)
    ensures 0.0 <= SkyProgress(q) <= 1.0
    decreases q - p
  {
    if 0 < q <= |PASSAGES| {
      SkyTableRises(q - 1);
    }
    if p < q {
      SkyStep(q - 1);
      SkyProgressMonotone(p, q - 1);
    }
  }

  /** `currentData`: the passage being typed, or null before the first click and after the last. */
  function CurrentData(currentPassage: nat): (r: Option<Passage>)
    ensures r.Some? <==> 0 < currentPassage <= |PASSAGES|
    ensures r.Some? ==> r.value == PASSAGES[currentPassage - 1]
  {
    if currentPassage > 0 && currentPassage <= |PASSAGES| then Some(PASSAGES[currentPassage - 1]) else None
  }

  /** `allDone`: past the last passage; the click handler is then detached and the final message scheduled. */
  predicate AllDone(currentPassage: nat)
  {
    currentPassage > |PASSAGES|
  }

  /** The hint shows while its timer has fired, passages remain, and no text is being typed. */
  predicate HintVisible(showHint: bool, currentPassage: nat, typingComplete: bool)
  {
    showHint && !AllDone(currentPassage) && typingComplete
  }

  /** The component state of chapter 7; `typer` is the mounted `TypewriterText`, if any. */
  class Chapter {
    var currentPassage: nat
    var typingComplete: bool
    var showFinalMessage: bool
    var showEnding: bool
    var showHint: bool
    var typer: Typewriter?

    /**
     * The passage never goes past one beyond the table; a typewriter is
     * mounted exactly while a passage is shown, typing that passage's text,
     * and typing counts as complete exactly when it has fired.
     */
    ghost predicate Valid()
      reads this, typer
    {
      currentPassage <= |PASSAGES| + 1 &&
      (CurrentData(currentPassage).Some? <==> typer != null) &&
      (typer != null ==>
        typer.Valid() && typer.text == PASSAGES[currentPassage - 1].text && typer.hasOnComplete &&
        (typingComplete <==> typer.completed)) &&
      (currentPassage == 0 ==> typingComplete) &&
      (AllDone(currentPassage) ==> !typingComplete) &&
      (showFinalMessage ==> AllDone(currentPassage)) &&
      (showEnding ==> showFinalMessage)
    }

    /** The initial states: no passage yet, and nothing to wait for. */
    constructor ()
      ensures Valid()
      ensures currentPassage == 0 && typingComplete && typer == null
      ensures !showFinalMessage && !showEnding && !showHint
      ensures SkyProgress(currentPassage) == 0.0
    {
      currentPassage := 0;
      typingComplete := true;
      showFinalMessage := false;
      showEnding := false;
      showHint := false;
      typer := null;
    }

    /** The 3-second hint timer fires. */
    method HintTimerFires()
      modifies this
      ensures showHint
      ensures currentPassage == old(currentPassage) && typingComplete == old(typingComplete)
      ensures typer == old(typer) && showFinalMessage == old(showFinalMessage) && showEnding == old(showEnding)
    {
      showHint := true;
    }

    /**
     * A click: ignored once every passage was shown (the handler is then
     * detached) and while a text is still being typed; otherwise the next
     * passage is mounted and the gate closes until it is typed out.
     */
    method HandleClick()
      requires Valid()
      modifies this
      ensures Valid()
      ensures var accepted := old(typingComplete) && !AllDone(old(currentPassage));
        (accepted ==> currentPassage == old(currentPassage) + 1 && !typingComplete && !showHint) &&
        (!accepted ==> currentPassage == old(currentPassage) && typingComplete == old(typingComplete) &&
                       typer == old(typer) && showHint == old(showHint))
      ensures old(typingComplete) && !AllDone(old(currentPassage)) && CurrentData(currentPassage).Some? ==>
        fresh(typer) && typer.displayedCount == 0
      ensures old(typingComplete) && old(typer) != null ==> old(typer.displayedCount) == |old(typer.text)|
      ensures showFinalMessage == old(showFinalMessage) && showEnding == old(showEnding)
    {
      if AllDone(currentPassage) || !typingComplete {
        return;
      }
      currentPassage := currentPassage + 1;
      typingComplete := false;
      showHint := false;
      if currentPassage <= |PASSAGES| {
        typer := new Typewriter(PASSAGES[currentPassage - 1].text, true);
      } else {
        typer := null;
      }
    }

    /** One step of the mounted typewriter; its `onComplete` reopens the gate. */
    method TypewriterStep()
      requires Valid()
      requires typer != null
      modifies this, typer
      ensures Valid()
      ensures typer == old(typer) && currentPassage == old(currentPassage)
      ensures typer.displayedCount == Advance(old(typer.displayedCount), |typer.text|)
      ensures typingComplete <==> typer.displayedCount == |typer.text| && (old(typingComplete) || old(typer.displayedCount) == |typer.text|)
      ensures showHint == old(showHint) && showFinalMessage == old(showFinalMessage) && showEnding == old(showEnding)
    {
      var fires := typer.Step();
      if fires {
        typingComplete := true;
      }
    }

    /** The 1.5-second final-message timer fires; it is scheduled once past the last passage. */
    method FinalTimerFires()
      requires Valid()
      requires AllDone(currentPassage)
      modifies this
      ensures Valid()
      ensures showFinalMessage
      ensures currentPassage == old(currentPassage) && typer == old(typer) && showEnding == old(showEnding)
      ensures typingComplete == old(typingComplete) && showHint == old(showHint)
    {
      showFinalMessage := true;
    }

    /** The button under the final message opens the ending screen. */
    method OpenEnding()
      requires Valid()
      requires showFinalMessage && !showEnding
      modifies this
      ensures Valid()
      ensures showEnding && showFinalMessage
      ensures currentPassage == old(currentPassage) && typer == old(typer)
      ensures typingComplete == old(typingComplete) && showHint == old(showHint)
    {
      showEnding := true;
    }

    /** While a text is being typed, the hint is hidden and a click changes nothing. */
    lemma GateClosedWhileTyping()
      requires Valid()
      requires typer != null && typer.displayedCount < |typer.text|
      ensures !typingComplete
      ensures !HintVisible(showHint, currentPassage, typingComplete)
    {
    }
  }
}
