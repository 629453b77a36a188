/**
 * Chapter 3, "Le Cœur en Armure": six heartbeats; each click makes the
 * plate with the current beat's index fall and shows that beat's text.
 */
module Chapter3 {
  import opened Reveal

  datatype Heartbeat = Heartbeat(text: string, subtext: string)

  /** The table `HEARTBEATS`, one entry per click. */
  const HEARTBEATS: seq<Heartbeat> := [
    Heartbeat("On m'a dit que j'avais changé.", "Que j'étais devenu froid, distant, inaccessible."),
    Heartbeat("Ils ne savent pas que la froideur est le prix que je paie.", "Pour ne pas m'effondrer chaque fois que je pense à toi."),
    Heartbeat("J'ai construit cette armure le jour où j'ai compris...", "Que te perdre n'était pas un risque. C'était déjà fait."),
    Heartbeat("Mais un cœur en armure reste un cœur.", "Il bat. Il saigne. Il se souvient."),
    Heartbeat("Le mien n'a jamais appris à t'oublier.", "Il a juste appris à saigner en silence."),
    Heartbeat("Et ce soir, pour toi, il enlève son armure.", "Pas pour revenir. Juste pour te montrer qu'il est vivant.")
  ]

  /** The ids of `ARMOR_PLATES` (their angles and fall vectors are presentation). */
  const PLATE_IDS: seq<int> := [0, 1, 2, 3, 4, 5]

  /** The text block under the heart: the latest beat's texts, or nothing before the first click. */
  function CurrentText(currentBeat: nat): (r: Option<Heartbeat>)
    ensures r.Some? <==> 0 < currentBeat <= |HEARTBEATS|
    ensures r.Some? ==> r.value == HEARTBEATS[currentBeat - 1]
  {
    if currentBeat > 0 && currentBeat <= |HEARTBEATS| then Some(HEARTBEATS[currentBeat - 1]) else None
  }

  /** `armorRemaining = 1 - fallenPlates.size / ARMOR_PLATES.length`. */
  function ArmorRemaining(fallenCount: nat): real
  {
    1.0 - (fallenCount as real) / (|PLATE_IDS| as real)
  }

  /** `allDone`: every beat has been played; the click handler is then detached. */
  predicate AllDone(currentBeat: nat)
  {
    currentBeat >= |HEARTBEATS|
  }

  /** The hint shows once its timer has fired, until every one of the beats has been shown. */
  predicate HintVisible(showHint: bool, currentBeat: nat)
  {
    showHint && !AllDone(currentBeat)
  }

  /** The useEffect condition that schedules the final message. */
  predicate FinalScheduled(fallenPlates: set<int>, currentBeat: nat)
  {
    |fallenPlates| == |PLATE_IDS| && currentBeat >= |HEARTBEATS|
  }

  /** A plate is drawn (not yet fallen) iff its id is not in the fallen set. */
  predicate PlateRendered(plate: int, fallenPlates: set<int>)
  {
    plate !in fallenPlates
  }

  /** The coupling `handleClick` maintains: the fallen plates are exactly 0 .. currentBeat-1. */
  ghost predicate Coupled(currentBeat: nat, fallenPlates: set<int>)
  {
    currentBeat <= |HEARTBEATS| && fallenPlates == Range(currentBeat)
  }

  /**
   * Under the coupling, the plates still on screen are exactly those whose id
   * is at least the beat, the fallen count is the beat, and the final message
   * is due exactly at the last beat.
   */
  lemma CoupledConsequences(currentBeat: nat, fallenPlates: set<int>)
    requires Coupled(currentBeat, fallenPlates)
    ensures |fallenPlates| == currentBeat <= |PLATE_IDS|
    ensures forall p :: p in PLATE_IDS ==> (PlateRendered(p, fallenPlates) <==> p >= currentBeat)
    ensures FinalScheduled(fallenPlates, currentBeat) <==> currentBeat == |HEARTBEATS|
    ensures AllDone(currentBeat) <==> currentBeat == |HEARTBEATS|
  {
  }

  /** The remaining armour runs from 1 with no plate fallen to 0 with all six fallen, never rising. */
  lemma ArmorFalls(currentBeat: nat)
    requires currentBeat <= |HEARTBEATS|
    ensures 0.0 <= ArmorRemaining(currentBeat) <= 1.0
    ensures ArmorRemaining(currentBeat) == 1.0 <==> currentBeat == 0
    ensures ArmorRemaining(currentBeat) == 0.0 <==> currentBeat == |HEARTBEATS|
    ensures ArmorRemaining(Advance(currentBeat, |HEARTBEATS|)) <= ArmorRemaining(currentBeat)
    ensures currentBeat < |HEARTBEATS| ==> ArmorRemaining(Advance(currentBeat, |HEARTBEATS|)) < ArmorRemaining(currentBeat)
  {
  }

  /** The component state of chapter 3. */
  class Chapter {
    var currentBeat: nat
    var fallenPlates: set<int>
    var showFinalMessage: bool
    var showHint: bool

    ghost predicate Valid()
      reads this
    {
      Coupled(currentBeat, fallenPlates) &&
      (showFinalMessage ==> FinalScheduled(fallenPlates, currentBeat))
    }

    constructor ()
      ensures Valid()
      ensures currentBeat == 0 && fallenPlates == {} && !showFinalMessage && !showHint
      ensures CurrentText(currentBeat) == None
    {
      currentBeat := 0;
      fallenPlates := {};
      showFinalMessage := false;
      showHint := false;
    }

    /** The 3-second hint timer fires. */
    method HintTimerFires()
      modifies this
      ensures showHint
      ensures currentBeat == old(currentBeat) && fallenPlates == old(fallenPlates)
      ensures showFinalMessage == old(showFinalMessage)
    {
      showHint := true;
    }

    /**
     * `handleClick`: ignored once every beat was played; otherwise the plate
     * numbered by the current beat falls, the beat advances and the hint hides.
     */
    method HandleClick()
      requires Valid()
      modifies this
      ensures Valid()
      ensures currentBeat == Advance(old(currentBeat), |HEARTBEATS|)
      ensures AllDone(old(currentBeat)) ==> fallenPlates == old(fallenPlates) && showHint == old(showHint)
      ensures !AllDone(old(currentBeat)) ==>
        fallenPlates == AddId(old(fallenPlates), old(currentBeat)) && !showHint
      ensures !AllDone(old(currentBeat)) ==> CurrentText(currentBeat) == Some(HEARTBEATS[old(currentBeat)])
      ensures showFinalMessage == old(showFinalMessage)
    {
      if currentBeat >= |HEARTBEATS| {
        return;
      }
      assert Range(currentBeat + 1) == Range(currentBeat) + {currentBeat};
      fallenPlates := fallenPlates + {currentBeat};
      currentBeat := currentBeat + 1;
      showHint := false;
    }

    /** The 2-second final-message timer fires; it only exists while its condition holds. */
    method FinalTimerFires()
      requires Valid()
      requires FinalScheduled(fallenPlates, currentBeat)
      modifies this
      ensures Valid()
      ensures showFinalMessage
      ensures currentBeat == old(currentBeat) && fallenPlates == old(fallenPlates)
      ensures showHint == old(showHint)
    {
      showFinalMessage := true;
    }
  }
}
