/** The mobile flash-card deck (job-tracker-mobile/app/prep.js): the deck is
    loaded (in an order chosen by a random shuffle, given here as the fetched
    list itself), flipped, and advanced card by card until it is reloaded. */
module MobilePrep {
  import opened Wrappers
  import opened Schema

  /** What `handleNext` is called with; it is ignored. */
  datatype Outcome = Know | Skip

  /** What the screen shows. */
  datatype View = Spinner | NoQuestions | Card(number: nat, total: nat, question: PrepQuestion, answerShown: bool)

  class Deck {
    var questions: seq<PrepQuestion>
    var currentIndex: int
    var showAnswer: bool
    var loading: bool

    /** The index points at a card of a non-empty deck, and is 0 for an empty one. */
    predicate Valid()
      reads this
    {
      if |questions| == 0 then currentIndex == 0 else 0 <= currentIndex < |questions|
    }

    constructor()
      ensures questions == [] && currentIndex == 0 && !showAnswer && loading
      ensures Valid()
    {
      questions := [];
      currentIndex := 0;
      showAnswer := false;
      loading := true;
    }

    /** The screen: a spinner while loading, a notice for an empty deck,
        otherwise the current card, numbered from 1. */
    function Current(): (v: View)
      reads this
      requires Valid()
      ensures v.Spinner? <==> loading
      ensures v.NoQuestions? <==> !loading && |questions| == 0
      ensures v.Card? ==> 1 <= v.number <= v.total == |questions| && v.question == questions[v.number - 1]
      ensures v.Card? ==> v.answerShown == showAnswer
    {
      if loading then Spinner
      else if |questions| == 0 then NoQuestions
      else Card(currentIndex + 1, |questions|, questions[currentIndex], showAnswer)
    }

    /** `fetchPrep`: on success (`Some`, already shuffled) the deck is replaced,
        the index reset to 0 and the answer hidden; on failure the deck is
        kept. Either way loading ends. */
    method FetchPrep(response: Option<seq<PrepQuestion>>)
      requires Valid()
      modifies this
      ensures Valid()
      ensures !loading
      ensures response.Some? ==> questions == response.value && currentIndex == 0 && !showAnswer
      ensures response.None? ==> questions == old(questions) && currentIndex == old(currentIndex) && showAnswer == old(showAnswer)
    {
      loading := true;
      if response.Some? {
        questions := response.value;
        currentIndex := 0;
        showAnswer := false;
      }
      loading := false;
    }

    /** Tapping the card. */
    method Flip()
      modifies this
      ensures showAnswer == !old(showAnswer)
      ensures questions == old(questions) && currentIndex == old(currentIndex) && loading == old(loading)
    {
      showAnswer := !showAnswer;
    }

    /** `handleNext`: before the last card, move on and hide the answer; on
        the last card, reload the deck. The outcome plays no part. */
    method HandleNext(outcome: Outcome, response: Option<seq<PrepQuestion>>)
      requires Valid()
      modifies this
      ensures Valid()
      ensures old(currentIndex) < |old(questions)| - 1 ==>
        && currentIndex == old(currentIndex) + 1 && !showAnswer
        && questions == old(questions) && loading == old(loading)
      ensures old(currentIndex) >= |old(questions)| - 1 ==>
        && !loading
        && (response.Some? ==> questions == response.value && currentIndex == 0 && !showAnswer)
        && (response.None? ==> questions == old(questions) && currentIndex == old(currentIndex) && showAnswer == old(showAnswer))
    {
      if currentIndex < |questions| - 1 {
        showAnswer := false;
        currentIndex := currentIndex + 1;
      } else {
        FetchPrep(response);
      }
    }
  }

  /** 'Got It' and 'Skip' leave two equal decks equal. */
  method KnowLikeSkip(a: Deck, b: Deck, response: Option<seq<PrepQuestion>>)
    requires a != b && a.Valid() && b.Valid()
    requires a.questions == b.questions && a.currentIndex == b.currentIndex
    requires a.showAnswer == b.showAnswer && a.loading == b.loading
    modifies a, b
    ensures a.questions == b.questions && a.currentIndex == b.currentIndex
    ensures a.showAnswer == b.showAnswer && a.loading == b.loading
  {
    a.HandleNext(Know, response);
    b.HandleNext(Skip, response);
  }

  /** Walking a loaded deck of n cards with n - 1 nexts shows every card in
      turn and ends on the last one. */
  method WalkDeck(deck: Deck, cards: seq<PrepQuestion>) returns (seen: seq<PrepQuestion>)
    requires |cards| > 0
    modifies deck
    ensures seen == cards
    ensures deck.questions == cards && deck.currentIndex == |cards| - 1 && !deck.loading
  {
    deck.questions, deck.currentIndex, deck.showAnswer, deck.loading := [], 0, false, true;
    deck.FetchPrep(Some(cards));
    seen := [cards[0]];
    while deck.currentIndex < |cards| - 1
      invariant deck.Valid() && deck.questions == cards && !deck.loading
      invariant seen == cards[..deck.currentIndex + 1]
      decreases |cards| - deck.currentIndex
    {
      deck.HandleNext(Know, None);
      seen := seen + [cards[deck.currentIndex]];
    }
  }
}
