/**
 * Chapter 4, "the desert": seven scenes shown one per click; some scenes
 * show ghost silhouettes, one shows hers.
 */
module Chapter4 {
  import opened Reveal

  /**
   * One entry of `SCENES`. `silhouetteCount` is 0 where the table leaves the
   * field out, which `silhouetteCount || 2` treats like an explicit 0.
   */
  datatype Scene = Scene(id: int, text: string, subtext: string, hasSilhouette: bool, isHer: bool, silhouetteCount: nat)

  const SCENES: seq<Scene> := [
    Scene(1, "Après toi, j'ai marché longtemps.",
      "Dans un désert que je ne savais même pas nommer.", false, false, 0),
    Scene(2, "Des visages sont venus. Des sourires. Des mains tendues.",
      "J'ai essayé. Sincèrement. De leur donner ce qu'ils méritaient.", true, false, 3),
    Scene(3, "Mais chaque fois que je murmurais le mot \"amour\"...",
      "Il sonnait creux. Comme un écho dans une cathédrale vide.", true, false, 2),
    Scene(4, "Les visages se dissolvaient comme aquarelles sous la pluie.",
      "Ce n'était pas leur faute. C'est mon cœur qui refusait de les peindre.", true, false, 4),
    Scene(5, "J'ai banalisé ce qui était sacré.",
      "Le mot \"amour\" est devenu une coquille sans âme. Un son vide que je prononçais par habitude, sans jamais le ressentir.", false, false, 0),
    Scene(6, "Parce que mon cœur ne languit que pour une seule personne.",
      "Et cette personne, c'est toi.", true, true, 0),
    Scene(7, "Mais je ne te veux plus. Plus comme avant.",
      "Je veux juste que tu existes dans ma vie. Comme une amie. Comme une lumière lointaine qui me rappelle que la beauté existe encore.", false, false, 0)
  ]

  /** The `positions` of `GhostSilhouette`, in percent from the left. */
  const POSITIONS: seq<int> := [20, 40, 60, 75]

  /** `currentData`: null before the first click, otherwise the scene the last click revealed. */
  function CurrentData(currentScene: nat): (r: Option<Scene>)
    requires currentScene <= |SCENES|
    ensures r.None? <==> currentScene == 0
    ensures r.Some? ==> r.value == SCENES[currentScene - 1]
  {
    if currentScene > 0 then Some(SCENES[currentScene - 1]) else None
  }

  /** `allDone`: every scene has been shown; the click handler is then detached. */
  predicate AllDone(currentScene: nat)
  {
    currentScene >= |SCENES|
  }

  /** The hint shows once its timer has fired, until every one of the scenes has been shown. */
  predicate HintVisible(showHint: bool, currentScene: nat)
  {
    showHint && !AllDone(currentScene)
  }

  /** How many silhouettes a scene draws: hers alone, or `silhouetteCount || 2` ghosts. */
  function SilhouettesShown(scene: Scene): (n: nat)
    ensures !scene.hasSilhouette ==> n == 0
    ensures scene.hasSilhouette && scene.isHer ==> n == 1
    ensures scene.hasSilhouette && !scene.isHer && scene.silhouetteCount == 0 ==> n == 2
    ensures scene.hasSilhouette && !scene.isHer && scene.silhouetteCount > 0 ==> n == scene.silhouetteCount
  {
    if !scene.hasSilhouette then 0
    else if scene.isHer then 1
    else if scene.silhouetteCount != 0 then scene.silhouetteCount
    else 2
  }

  /** The left position of the silhouette with index `i`: `positions[i % 4]`. */
  function SilhouetteLeft(i: nat): (left: int)
    ensures left in POSITIONS
    ensures i < |POSITIONS| ==> left == POSITIONS[i]
  {
    POSITIONS[i % |POSITIONS|]
  }

  /** The positions repeat every four silhouettes: index i stands where index i % 4 does. */
  lemma SilhouetteLeftPeriodic(i: nat)
    ensures SilhouetteLeft(i) == SilhouetteLeft(i % |POSITIONS|)
    ensures SilhouetteLeft(i + |POSITIONS|) == SilhouetteLeft(i)
  {
  }

  /**
   * In every scene of the table the silhouettes drawn stand at pairwise
   * different positions: no scene draws more than four, and four indices
   * below 4 select four different entries of `positions`.
   */
  lemma SilhouettesNeverOverlap(k: nat, i: nat, j: nat)
    requires k < |SCENES|
    requires i < j < SilhouettesShown(SCENES[k])
    ensures SilhouetteLeft(i) != SilhouetteLeft(j)
  {
    assert SilhouettesShown(SCENES[k]) <= |POSITIONS| by {
      assert forall m :: 0 <= m < |SCENES| ==> SilhouettesShown(SCENES[m]) <= 4;
    }
  }

  /** Exactly one scene in the table is hers, and it shows her single silhouette. */
  lemma HerSceneIsUnique()
    ensures forall k :: 0 <= k < |SCENES| ==> (SCENES[k].isHer <==> k == 5)
    ensures SilhouettesShown(SCENES[5]) == 1
  {
  }

  /** The scene after each click from the start, and the final-message condition. */
  lemma {:induction false} ScenesAfterClicks(k: nat)
    ensures Clicks(0, k, |SCENES|) == Min(k, |SCENES|)
    ensures k >= 1 ==> CurrentData(Clicks(0, k, |SCENES|)) == Some(SCENES[Min(k, |SCENES|) - 1])
    ensures AllDone(Clicks(0, k, |SCENES|)) <==> k >= |SCENES|
  {
    ClicksReach(0, k, |SCENES|);
  }

  /** The component state of chapter 4. */
  class Chapter {
    var currentScene: nat
    var showFinalMessage: bool
    var showHint: bool

    ghost predicate Valid()
      reads this
    {
      currentScene <= |SCENES| &&
      (showFinalMessage ==> AllDone(currentScene))
    }

    constructor ()
      ensures Valid()
      ensures currentScene == 0 && !showFinalMessage && !showHint
      ensures CurrentData(currentScene) == None
    {
      currentScene := 0;
      showFinalMessage := false;
      showHint := false;
    }

    /** The 3-second hint timer fires. */
    method HintTimerFires()
      modifies this
      ensures showHint
      ensures currentScene == old(currentScene) && showFinalMessage == old(showFinalMessage)
    {
      showHint := true;
    }

    /** `handleClick`: advance one scene and hide the hint while scenes remain. */
    method HandleClick()
      requires Valid()
      modifies this
      ensures Valid()
      ensures currentScene == Advance(old(currentScene), |SCENES|)
      ensures !AllDone(old(currentScene)) ==> !showHint && CurrentData(currentScene) == Some(SCENES[old(currentScene)])
      ensures AllDone(old(currentScene)) ==> showHint == old(showHint)
      ensures showFinalMessage == old(showFinalMessage)
    {
      if currentScene < |SCENES| {
        currentScene := currentScene + 1;
        showHint := false;
      }
    }

    /** The 2-second final-message timer fires; it is scheduled once every scene has been shown. */
    method FinalTimerFires()
      requires Valid()
      requires AllDone(currentScene)
      modifies this
      ensures Valid()
      ensures showFinalMessage && currentScene == old(currentScene)
      ensures showHint == old(showHint)
    {
      showFinalMessage := true;
    }
  }
}
