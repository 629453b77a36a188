/**
 * Chapter 6, "Les Voix du Dehors": six shadows whisper around a central
 * light; touching one repels it for good and shows the truth that answers
 * it, and the light grows with every shadow repelled.
 */
module Chapter6 {
  import opened Reveal

  /** One entry of `SHADOWS` (its angle and distance only place it on screen). */
  datatype Shadow = Shadow(id: int, whisper: string, truth: string)

  const SHADOWS: seq<Shadow> := [
    Shadow(1, "« Tu mérites mieux que quelqu'un qui se tait... »",
      "Personne ne connaît la valeur de notre silence mieux que nous."),
    Shadow(2, "« Oublie-le, il ne changera jamais... »",
      "Je n'ai pas besoin de changer. J'ai besoin qu'on comprenne que ma profondeur n'est pas un défaut."),
    Shadow(3, "« Il est trop compliqué, trop distant... »",
      "La complexité n'est pas un mur. C'est un labyrinthe avec un jardin au centre."),
    Shadow(4, "« Le bonheur, c'est la simplicité... »",
      "Le bonheur n'est ni simple ni compliqué. Il est authentique. Ou il n'est rien."),
    Shadow(5, "« Tu perds ton temps avec le passé... »",
      "Ce n'est pas le passé que je protège. C'est la personne que tu es quand personne ne te regarde."),
    Shadow(6, "« Sois comme tout le monde, c'est plus sûr... »",
      "Ne laisse personne éteindre ce qui fait de toi... toi. Ta singularité est ton plus beau trésor.")
  ]

  /** The ids of the shadows (`ShadowIdsAreTableIds` ties them to `SHADOWS`). */
  function ShadowIds(): (ids: set<int>)
    ensures forall x :: x in ids <==> 1 <= x <= 6
    ensures |ids| == |SHADOWS|
  {
    {1, 2, 3, 4, 5, 6}
  }

  /** The shadow ids are exactly the ids the table carries, shadow `i` having id i+1. */
  lemma ShadowIdsAreTableIds()
    ensures forall i :: 0 <= i < |SHADOWS| ==> SHADOWS[i].id == i + 1
    ensures ShadowIds() == set i | 0 <= i < |SHADOWS| :: SHADOWS[i].id
  {
    var ids := set i | 0 <= i < |SHADOWS| :: SHADOWS[i].id;
    assert forall i :: 0 <= i < |SHADOWS| ==> SHADOWS[i].id == i + 1;
    forall x | x in ShadowIds() ensures x in ids {
      assert SHADOWS[x - 1].id == x;
    }
    assert ids <= ShadowIds();
  }

  /**
   * `SHADOWS.find(s => s.id === id)`: since shadow `i` carries id i+1, the
   * shadow found is the one at index id-1, and there is none outside 1..6.
   */
  function LookupShadow(id: int): (r: Option<Shadow>)
    ensures r.Some? <==> id in ShadowIds()
    ensures r.Some? ==> r.value == SHADOWS[id - 1] && r.value.id == id
  {
    if 1 <= id <= |SHADOWS| then Some(SHADOWS[id - 1]) else None
  }

  /** The `updateSize` breakpoints: the central zone shrinks on narrow screens. */
  function ContainerSize(width: int): (size: int)
    ensures width < 480 ==> size == 280
    ensures 480 <= width < 768 ==> size == 340
    ensures 768 <= width ==> size == 420
  {
    if width < 480 then 280
    else if width < 768 then 340
    else 420
  }

  /** A wider screen never gets a smaller zone, and the zone is one of the three sizes. */
  lemma ContainerSizeMonotone(w1: int, w2: int)
    requires w1 <= w2
    ensures ContainerSize(w1) <= ContainerSize(w2)
    ensures ContainerSize(w1) in {280, 340, 420}
  {
  }

  /** `lightIntensity = repelledIds.size / SHADOWS.length`. */
  function LightIntensity(repelledCount: nat): real
  {
    (repelledCount as real) / (|SHADOWS| as real)
  }

  /** `allDone`: every shadow has been repelled. */
  predicate AllDone(repelledIds: set<int>)
  {
    |repelledIds| == |SHADOWS|
  }

  /**
   * The light starts dark, grows strictly with each shadow repelled, stays
   * within [0, 1], and is full exactly when every shadow is gone.
   */
  lemma LightGrows(repelledCount: nat)
    requires repelledCount <= |SHADOWS|
    ensures 0.0 <= LightIntensity(repelledCount) <= 1.0
    ensures LightIntensity(0) == 0.0
    ensures LightIntensity(repelledCount) == 1.0 <==> repelledCount == |SHADOWS|
    ensures repelledCount < |SHADOWS| ==> LightIntensity(repelledCount) < LightIntensity(repelledCount + 1)
  {
  }

  /** The useEffect on `repelledIds.size`: the final-message timer is scheduled iff every shadow is repelled. */
  predicate FinalScheduled(repelledIds: set<int>)
  {
    |repelledIds| == |SHADOWS|
  }

  /** `!isRepelled`: a shadow is drawn (and can be touched) until it is repelled. */
  predicate ShadowRendered(id: int, repelledIds: set<int>)
  {
    id !in repelledIds
  }

  /** The "clique sur les ombres" hint shows only before the first shadow is repelled. */
  predicate HintVisible(showHint: bool, repelledIds: set<int>)
  {
    showHint && |repelledIds| == 0
  }

  /** The component state of chapter 6. */
  class Chapter {
    var repelledIds: set<int>
    var currentTruth: string
    var showFinalMessage: bool
    var showHint: bool
    var containerSize: int

    /** Only table ids are ever repelled, and the final message follows completion. */
    ghost predicate Valid()
      reads this
    {
      repelledIds <= ShadowIds() &&
      (showFinalMessage ==> FinalScheduled(repelledIds))
    }

    /** The initial states; the zone is 350 until the size effect first runs. */
    constructor ()
      ensures Valid()
      ensures repelledIds == {} && currentTruth == "" && !showFinalMessage && !showHint
      ensures containerSize == 350
    {
      repelledIds := {};
      currentTruth := "";
      showFinalMessage := false;
      showHint := false;
      containerSize := 350;
    }

    /** `updateSize`, run on mount and on every resize, with the window's inner width. */
    method UpdateSize(width: int)
      modifies this
      ensures containerSize == ContainerSize(width)
      ensures repelledIds == old(repelledIds) && currentTruth == old(currentTruth)
      ensures showFinalMessage == old(showFinalMessage) && showHint == old(showHint)
    {
      containerSize := ContainerSize(width);
    }

    /** The 3-second hint timer fires. */
    method HintTimerFires()
      modifies this
      ensures showHint
      ensures repelledIds == old(repelledIds) && currentTruth == old(currentTruth)
      ensures showFinalMessage == old(showFinalMessage) && containerSize == old(containerSize)
    {
      showHint := true;
    }

    /**
     * `repelShadow(id)`: an id that names no shadow changes nothing;
     * otherwise the shadow is repelled (once) and its truth shown.
     */
    method RepelShadow(id: int)
      requires Valid()
      modifies this
      ensures Valid()
      ensures LookupShadow(id).None? ==>
        repelledIds == old(repelledIds) && currentTruth == old(currentTruth) && showHint == old(showHint)
      ensures LookupShadow(id).Some? ==>
        repelledIds == AddId(old(repelledIds), id) && currentTruth == LookupShadow(id).value.truth && !showHint
      ensures LookupShadow(id).Some? ==> !ShadowRendered(id, repelledIds)
      ensures showFinalMessage == old(showFinalMessage) && containerSize == old(containerSize)
    {
      var shadow := LookupShadow(id);
      if shadow.None? {
        return;
      }
      FullIffSize(repelledIds, ShadowIds());
      if FinalScheduled(repelledIds) {
        assert repelledIds + {id} == repelledIds;
      }
      repelledIds := repelledIds + {id};
      currentTruth := shadow.value.truth;
      showHint := false;
    }

    /** The 2-second final-message timer fires; it only exists once every shadow is repelled. */
    method FinalTimerFires()
      requires Valid()
      requires FinalScheduled(repelledIds)
      modifies this
      ensures Valid()
      ensures showFinalMessage && repelledIds == old(repelledIds) && currentTruth == old(currentTruth)
      ensures showHint == old(showHint) && containerSize == old(containerSize)
    {
      showFinalMessage := true;
    }

    /** The repelled set never outgrows the table; it is complete iff every shadow is repelled, and then none is drawn. */
    lemma Bounded()
      requires Valid()
      ensures |repelledIds| <= |SHADOWS|
      ensures AllDone(repelledIds) <==> repelledIds == ShadowIds()
      ensures AllDone(repelledIds) ==> forall i :: 0 <= i < |SHADOWS| ==> !ShadowRendered(SHADOWS[i].id, repelledIds)
    {
      FullIffSize(repelledIds, ShadowIds());
      ShadowIdsAreTableIds();
    }
  }
}
