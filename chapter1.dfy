/**
 * Chapter 1, "L'Hiver Silencieux": each click reveals the next of eight
 * texts; once all are shown a continue button hands control back to the
 * sequencer.
 */
module Chapter1 {
  import opened Reveal

  datatype TextKind = Title | Text | Quote

  datatype TextItem = TextItem(kind: TextKind, content: string)

  /** The chapter's table `TEXTS`, in display order. */
  const TEXTS: seq<TextItem> := [
    TextItem(Title, "L'Hiver Silencieux"),
    TextItem(Text, "Il y a des silences qui pèsent plus lourd que les mots."),
    TextItem(Text, "Des distances qui ne se mesurent ni en kilomètres, ni en mois... mais en battements de cœur retenus."),
    TextItem(Text, "La Saint-Valentin revient, comme chaque année. Et chaque année, elle murmure ton nom dans les recoins de ma mémoire."),
    TextItem(Quote, "« On m'a demandé pourquoi j'étais si silencieux. Comment leur expliquer que mon silence est la seule langue qui te reste fidèle ? »"),
    TextItem(Text, "Je n'ai pas disparu par indifférence. Je me suis tu parce que chaque mot que j'aurais pu dire aurait été une tempête déguisée en murmure."),
    TextItem(Text, "Et dans ce silence, il neige. Doucement. Comme ce soir."),
    TextItem(Text, "Touche la neige. Elle a des choses à te raconter.")
  ]

  /** `TEXTS.slice(0, revealedCount)`: the texts on screen, oldest first. */
  function VisibleTexts(revealedCount: nat): (r: seq<TextItem>)
    requires revealedCount <= |TEXTS|
    ensures |r| == revealedCount
    ensures forall i :: 0 <= i < revealedCount ==> r[i] == TEXTS[i]
  {
    TEXTS[..revealedCount]
  }

  /** The continue button (and with it `onComplete`) is offered once every text is shown. */
  predicate ContinueOffered(revealedCount: nat)
  {
    revealedCount >= |TEXTS|
  }

  /** The "touche l'écran" hint is on screen while its timer has fired and texts remain. */
  predicate HintVisible(showHint: bool, revealedCount: nat)
  {
    showHint && revealedCount < |TEXTS|
  }

  /**
   * One click shows exactly one more text, appended at the end, while texts
   * remain; once all are shown the screen no longer changes.
   */
  lemma ClickAppendsOneText(revealedCount: nat)
    requires revealedCount <= |TEXTS|
    ensures revealedCount < |TEXTS| ==>
      VisibleTexts(Advance(revealedCount, |TEXTS|)) == VisibleTexts(revealedCount) + [TEXTS[revealedCount]]
    ensures revealedCount == |TEXTS| ==>
      VisibleTexts(Advance(revealedCount, |TEXTS|)) == VisibleTexts(revealedCount) == TEXTS
  {
    if revealedCount < |TEXTS| {
      assert TEXTS[..revealedCount + 1] == TEXTS[..revealedCount] + [TEXTS[revealedCount]];
    }
  }

  /**
   * After `k` clicks from the start, the first min(k, 8) texts are shown;
   * the continue button appears exactly when at least eight clicks were made,
   * and never together with the hint.
   */
  lemma {:induction false} AfterClicks(k: nat, showHint: bool)
    ensures Clicks(0, k, |TEXTS|) <= |TEXTS|
    ensures VisibleTexts(Clicks(0, k, |TEXTS|)) == TEXTS[..Min(k, |TEXTS|)]
    ensures ContinueOffered(Clicks(0, k, |TEXTS|)) <==> k >= |TEXTS|
    ensures !(ContinueOffered(Clicks(0, k, |TEXTS|)) && HintVisible(showHint, Clicks(0, k, |TEXTS|)))
  {
    ClicksReach(0, k, |TEXTS|);
  }

  /** The component state of chapter 1. */
  class Chapter {
    var revealedCount: nat
    var showHint: bool

    ghost predicate Valid()
      reads this
    {
      revealedCount <= |TEXTS|
    }

    /** `useState(0)` and `useState(false)`. */
    constructor ()
      ensures Valid()
      ensures revealedCount == 0 && !showHint
      ensures VisibleTexts(revealedCount) == []
    {
      revealedCount := 0;
      showHint := false;
    }

    /** The 3-second hint timer fires. */
    method HintTimerFires()
      modifies this
      ensures showHint && revealedCount == old(revealedCount)
    {
      showHint := true;
    }

    /** `handleClick`: reveal one more text and hide the hint, unless all are shown. */
    method HandleClick()
      requires Valid()
      modifies this
      ensures Valid()
      ensures revealedCount == Advance(old(revealedCount), |TEXTS|)
      ensures old(revealedCount) < |TEXTS| ==> !showHint
      ensures old(revealedCount) >= |TEXTS| ==> showHint == old(showHint)
    {
      if revealedCount < |TEXTS| {
        revealedCount := revealedCount + 1;
        showHint := false;
      }
    }
  }
}
