/**
 * The top-level chapter sequencer: an index that starts at 1 and whose only
 * update is "add one", and a closed switch that turns the index into a view.
 */
module App {

  /** What `renderChapter` returns: one of the seven chapters, or the placeholder. */
  datatype View = Chapter(number: int) | Placeholder

  const LastChapter: nat := 7

  /** The switch over the chapter index: 1..7 select chapters 1..7, anything else the placeholder. */
  function RenderChapter(index: int): (v: View)
    ensures 1 <= index <= LastChapter <==> v.Chapter?
    ensures v.Chapter? ==> v.number == index
  {
    match index
    case 1 => Chapter(1)
    case 2 => Chapter(2)
    case 3 => Chapter(3)
    case 4 => Chapter(4)
    case 5 => Chapter(5)
    case 6 => Chapter(6)
    case 7 => Chapter(7)
    case _ => Placeholder
  }

  /** Whether the rendered view is handed `goToNextChapter` as its `onComplete` prop. */
  predicate ReceivesAdvance(v: View)
  {
    v.Chapter? && v.number != LastChapter
  }

  /**
   * The index after the rendered view has called its `onComplete` once:
   * only a view that was handed the callback can advance the sequencer.
   */
  function AfterComplete(index: int): (next: int)
    ensures next == index || next == index + 1
    ensures next == index + 1 <==> 1 <= index < LastChapter
  {
    if ReceivesAdvance(RenderChapter(index)) then index + 1 else index
  }

  /** The index after the rendered chapters have completed `k` times in a row. */
  function Completions(index: int, k: nat): int
    decreases k
  {
    if k == 0 then index else Completions(AfterComplete(index), k - 1)
  }

  /**
   * From any chapter index, `k` completions reach chapter min(index + k, 7):
   * the index never decreases, never wraps, and stops at the last chapter,
   * which has no way to call back.
   */
  lemma {:induction false} CompletionsFromStart(index: int, k: nat)
    requires 1 <= index <= LastChapter
    ensures Completions(index, k) == if index + k <= LastChapter then index + k else LastChapter
    decreases k
  {
    if k > 0 {
      CompletionsFromStart(AfterComplete(index), k - 1);
    }
  }

  /** Chapter 7 is terminal: completing it any number of times stays on it. */
  lemma {:induction false} LastChapterIsTerminal(k: nat)
    ensures Completions(LastChapter, k) == LastChapter
    ensures RenderChapter(Completions(LastChapter, k)) == Chapter(LastChapter)
  {
    CompletionsFromStart(LastChapter, k);
  }

  /** The application state: the index of the chapter on screen. */
  class Sequencer {
    var currentChapter: int

    /** Every index the sequencer can reach selects one of the seven chapters. */
    ghost predicate Valid()
      reads this
    {
      1 <= currentChapter <= LastChapter
    }

    /** `useState(1)`: the story starts at chapter 1. */
    constructor ()
      ensures currentChapter == 1
      ensures Valid()
      ensures RenderChapter(currentChapter) == Chapter(1)
    {
      currentChapter := 1;
    }

    /** The view `renderChapter` produces for the current state. */
    function Current(): (v: View)
      reads this
      requires Valid()
      ensures v == Chapter(currentChapter)
    {
      RenderChapter(currentChapter)
    }

    /** `goToNextChapter`: the index goes up by exactly one and nothing else changes. */
    method GoToNextChapter()
      modifies this
      ensures currentChapter == old(currentChapter) + 1
    {
      currentChapter := currentChapter + 1;
    }

    /**
     * The rendered chapter calls its `onComplete` prop: chapters 1..6 hold
     * `goToNextChapter`, chapter 7 holds nothing, so the call is a no-op there.
     */
    method CompleteCurrentChapter()
      requires Valid()
      modifies this
      ensures Valid()
      ensures currentChapter == AfterComplete(old(currentChapter))
      ensures old(currentChapter) <= currentChapter
    {
      if ReceivesAdvance(RenderChapter(currentChapter)) {
        GoToNextChapter();
      }
    }
  }
}
