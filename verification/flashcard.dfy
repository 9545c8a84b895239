/**
 * The flashcard viewer of Flashcard.tsx. The card index belongs to the
 * caller (`currentIndex`, default 0); the component owns the face shown
 * and the flip animation flag.
 *
 * A flip happens in two steps: the click starts the animation and arms a
 * timer whose callback was created with the face shown at click time; the
 * timer later sets the face to the opposite of that captured face. The
 * armed callbacks are kept in `pendingFlips` in the order they will fire.
 */
module Flashcards {
  import opened Wrappers

  datatype FlashcardData = FlashcardData(id: string, question: string, answer: string)

  /** `cards[currentIndex]`: undefined outside the array. */
  function CurrentCard(cards: seq<FlashcardData>, index: int): (r: Option<FlashcardData>)
    ensures r.Some? <==> 0 <= index < |cards|
    ensures r.Some? ==> r.value == cards[index]
  {
    if 0 <= index < |cards| then Some(cards[index]) else None
  }

  /** What the component renders. */
  datatype View =
    | NoCards                                   // "No flashcards available"
    | CardView(face: string, text: string, position: int, total: nat)

  /** The face label and text for the current card, or the empty state. */
  function Display(cards: seq<FlashcardData>, index: int, isFlipped: bool): (v: View)
    ensures v.NoCards? <==> !(0 <= index < |cards|)
    ensures v.CardView? && isFlipped ==> v.face == "Answer" && v.text == cards[index].answer
    ensures v.CardView? && !isFlipped ==> v.face == "Question" && v.text == cards[index].question
    ensures v.CardView? ==> v.position == index + 1 && v.total == |cards| && 1 <= v.position <= v.total
  {
    match CurrentCard(cards, index)
    case None => NoCards
    case Some(card) =>
      if isFlipped then CardView("Answer", card.answer, index + 1, |cards|)
      else CardView("Question", card.question, index + 1, |cards|)
  }

  /** The Previous button is disabled on the first card. */
  predicate PreviousDisabled(index: int)
  {
    index == 0
  }

  /** The Next button is disabled on the last card. */
  predicate NextDisabled(total: nat, index: int)
  {
    index == total - 1
  }

  class Flashcard {
    const cards: seq<FlashcardData>
    var isFlipped: bool
    var flipAnimation: bool
    /** The faces the armed timer callbacks will set, in firing order. */
    var pendingFlips: seq<bool>

    /** The animation only runs while a timer is armed. */
    ghost predicate Valid()
      reads this
    {
      pendingFlips == [] ==> !flipAnimation
    }

    constructor (cards: seq<FlashcardData>)
      ensures Valid() && this.cards == cards
      ensures !isFlipped && !flipAnimation && pendingFlips == []
    {
      this.cards := cards;
      isFlipped := false;
      flipAnimation := false;
      pendingFlips := [];
    }

    /** `handleFlip()`: start the animation and arm a timer that will show the other face. */
    method HandleFlip()
      requires Valid()
      modifies this
      ensures Valid()
      ensures flipAnimation && isFlipped == old(isFlipped)
      ensures pendingFlips == old(pendingFlips) + [!old(isFlipped)]
    {
      flipAnimation := true;
      pendingFlips := pendingFlips + [!isFlipped];
    }

    /** The earliest timer fires: set the captured face, stop the animation and report the face. */
    method CompleteFlip() returns (reported: bool)
      requires Valid() && pendingFlips != []
      modifies this
      ensures Valid()
      ensures reported == old(pendingFlips[0]) && isFlipped == reported
      ensures !flipAnimation && pendingFlips == old(pendingFlips[1..])
    {
      reported := pendingFlips[0];
      isFlipped := reported;
      flipAnimation := false;
      pendingFlips := pendingFlips[1..];
    }

    /** `handleNext()`: before the last card, show the question side and ask the caller to advance. */
    method HandleNext(index: int) returns (requested: bool)
      requires Valid()
      modifies this
      ensures Valid()
      ensures requested <==> index < |cards| - 1
      ensures 0 <= index < |cards| ==> (requested <==> !NextDisabled(|cards|, index))
      ensures requested ==> !isFlipped
      ensures !requested ==> isFlipped == old(isFlipped)
      ensures flipAnimation == old(flipAnimation) && pendingFlips == old(pendingFlips)
    {
      requested := index < |cards| - 1;
      if requested {
        isFlipped := false;
      }
    }

    /** `handlePrevious()`: after the first card, show the question side and ask the caller to step back. */
    method HandlePrevious(index: int) returns (requested: bool)
      requires Valid()
      modifies this
      ensures Valid()
      ensures requested <==> index > 0
      ensures 0 <= index < |cards| ==> (requested <==> !PreviousDisabled(index))
      ensures requested ==> !isFlipped
      ensures !requested ==> isFlipped == old(isFlipped)
      ensures flipAnimation == old(flipAnimation) && pendingFlips == old(pendingFlips)
    {
      requested := index > 0;
      if requested {
        isFlipped := false;
      }
    }
  }

  /** A flip that completes before the next click shows and reports the other face. */
  method FlipOnce(f: Flashcard) returns (reported: bool)
    requires f.Valid() && f.pendingFlips == []
    modifies f
    ensures f.Valid() && f.pendingFlips == []
    ensures f.isFlipped == !old(f.isFlipped) && reported == f.isFlipped && !f.flipAnimation
  {
    f.HandleFlip();
    reported := f.CompleteFlip();
  }

  /** Two completed flips restore the face that was shown. */
  method FlipTwice(f: Flashcard) returns (first: bool, second: bool)
    requires f.Valid() && f.pendingFlips == []
    modifies f
    ensures f.Valid() && f.pendingFlips == []
    ensures f.isFlipped == old(f.isFlipped) && first == !second
  {
    first := FlipOnce(f);
    second := FlipOnce(f);
  }

  /**
   * Two clicks before the first timer fires arm two callbacks that captured
   * the same face, so the card turns over once, not twice.
   */
  method DoubleClickFlipsOnce(f: Flashcard) returns (first: bool, second: bool)
    requires f.Valid() && f.pendingFlips == []
    modifies f
    ensures f.Valid() && f.pendingFlips == []
    ensures f.isFlipped == !old(f.isFlipped) && first == second
  {
    f.HandleFlip();
    f.HandleFlip();
    first := f.CompleteFlip();
    second := f.CompleteFlip();
  }
}
