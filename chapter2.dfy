/**
 * Chapter 2, "the frozen garden": five ice blocks, each broken by a click;
 * the set of broken ids only grows, and the final message follows once all
 * five are broken.
 */
module Chapter2 {
  import opened Reveal

  datatype IceBlock = IceBlock(id: int, flower: string, text: string)

  /** The table `ICE_BLOCKS` (colours are presentation and left out). */
  const ICE_BLOCKS: seq<IceBlock> := [
    IceBlock(1, "🌹", "Ce que tu prends pour du gel est une armure de survie."),
    IceBlock(2, "🌸", "Chaque silence portait ton nom comme une prière muette."),
    IceBlock(3, "🌺", "Je n'ai pas gelé. J'ai préservé. Chaque souvenir, intact."),
    IceBlock(4, "🌷", "La froideur n'était qu'un voile. Dessous, chaque émotion brûle encore."),
    IceBlock(5, "🌻", "Sous la glace la plus épaisse, un jardin entier t'attendait.")
  ]

  /** The ids of the rendered blocks (`BlockIdsAreTableIds` ties them to `ICE_BLOCKS`). */
  function BlockIds(): (ids: set<int>)
    ensures forall x :: x in ids <==> 1 <= x <= 5
    ensures |ids| == |ICE_BLOCKS|
  {
    {1, 2, 3, 4, 5}
  }

  /** The block ids are exactly the ids the table's blocks carry, block `i` having id i+1. */
  lemma BlockIdsAreTableIds()
    ensures forall i :: 0 <= i < |ICE_BLOCKS| ==> ICE_BLOCKS[i].id == i + 1
    ensures BlockIds() == set i | 0 <= i < |ICE_BLOCKS| :: ICE_BLOCKS[i].id
  {
    var ids := set i | 0 <= i < |ICE_BLOCKS| :: ICE_BLOCKS[i].id;
    forall x | x in BlockIds() ensures x in ids {
      assert ICE_BLOCKS[x - 1].id == x;
    }
  }

  /** The useEffect on `brokenIds.size`: the final-message timer is scheduled iff every block is broken. */
  predicate FinalScheduled(brokenIds: set<int>)
  {
    |brokenIds| == |ICE_BLOCKS|
  }

  const Freed: string := " — Tout est libéré"

  /** The counter line: "size / 5", followed by " — Tout est libéré" when every block is broken. */
  function CounterText(size: nat): string
  {
    NatToString(size) + " / " + NatToString(|ICE_BLOCKS|) + (if size == |ICE_BLOCKS| then Freed else "")
  }

  predicate EndsWith(s: string, suffix: string)
  {
    |suffix| <= |s| && s[|s| - |suffix|..] == suffix
  }

  /** The counter announces the liberation exactly when all five blocks are broken. */
  lemma CounterAnnouncesFreedomIff(size: nat)
    ensures EndsWith(CounterText(size), Freed) <==> size == |ICE_BLOCKS|
  {
    var base := NatToString(size) + " / " + NatToString(|ICE_BLOCKS|);
    if size == |ICE_BLOCKS| {
      assert CounterText(size) == base + Freed;
      assert CounterText(size)[|CounterText(size)| - |Freed|..] == Freed;
    } else {
      assert CounterText(size) == base;
      assert base[|base| - 1] == '5';
    }
  }

  /** The counter opens with the digits of the broken count, then " / 5". */
  lemma CounterShowsCount(size: nat)
    ensures var d := |NatToString(size)|;
      d + 4 <= |CounterText(size)| &&
      DigitsValue(CounterText(size)[..d]) == size &&
      CounterText(size)[d..d + 4] == " / 5"
  {
    var d := |NatToString(size)|;
    NatToStringValue(size);
    assert NatToString(|ICE_BLOCKS|) == "5";
    assert CounterText(size)[..d] == NatToString(size);
  }

  /** A block calls `onBreak` only while it is not yet broken. */
  predicate ClickBreaks(brokenIds: set<int>, id: int)
  {
    id !in brokenIds
  }

  /** Blocks still covered by ice, in table order. */
  function CoveredBlocks(brokenIds: set<int>): (r: seq<IceBlock>)
    ensures forall b :: b in r <==> b in ICE_BLOCKS && b.id !in brokenIds
  {
    Covered(ICE_BLOCKS, brokenIds)
  }

  function Covered(blocks: seq<IceBlock>, brokenIds: set<int>): (r: seq<IceBlock>)
    ensures forall b :: b in r <==> b in blocks && b.id !in brokenIds
    ensures |r| <= |blocks|
  {
    if blocks == [] then []
    else (if blocks[0].id in brokenIds then [] else [blocks[0]]) + Covered(blocks[1..], brokenIds)
  }

  /** The component state of chapter 2. */
  class Chapter {
    var brokenIds: set<int>
    var showFinalMessage: bool

    /** Only table ids are ever broken, and the final message follows completion. */
    ghost predicate Valid()
      reads this
    {
      brokenIds <= BlockIds() &&
      (showFinalMessage ==> FinalScheduled(brokenIds))
    }

    /** Nothing is broken at first. */
    constructor ()
      ensures Valid()
      ensures brokenIds == {} && !showFinalMessage
    {
      brokenIds := {};
      showFinalMessage := false;
    }

    /** `breakIce(id)`: the new set is the old one with `id` added. */
    method BreakIce(id: int)
      requires Valid()
      requires id in BlockIds()
      modifies this
      ensures Valid()
      ensures brokenIds == AddId(old(brokenIds), id)
      ensures showFinalMessage == old(showFinalMessage)
    {
      FullIffSize(brokenIds, BlockIds());
      if FinalScheduled(brokenIds) {
        assert brokenIds + {id} == brokenIds;
      }
      brokenIds := brokenIds + {id};
    }

    /** A click on the block with this id: the block forwards it to `breakIce` only while unbroken. */
    method ClickBlock(id: int)
      requires Valid()
      requires id in BlockIds()
      modifies this
      ensures Valid()
      ensures brokenIds == old(brokenIds) + {id}
      ensures |brokenIds| == |old(brokenIds)| + (if ClickBreaks(old(brokenIds), id) then 1 else 0)
      ensures showFinalMessage == old(showFinalMessage)
    {
      if ClickBreaks(brokenIds, id) {
        BreakIce(id);
      }
    }

    /** The 1.5-second final-message timer fires; it only exists once every block is broken. */
    method FinalTimerFires()
      requires Valid()
      requires FinalScheduled(brokenIds)
      modifies this
      ensures Valid()
      ensures showFinalMessage && brokenIds == old(brokenIds)
    {
      showFinalMessage := true;
    }

    /** The broken set never outgrows the table, and it is complete iff every block is broken. */
    lemma SizeBounded()
      requires Valid()
      ensures |brokenIds| <= |ICE_BLOCKS|
      ensures FinalScheduled(brokenIds) <==> brokenIds == BlockIds()
    {
      FullIffSize(brokenIds, BlockIds());
    }
  }
}
