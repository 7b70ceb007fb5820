/**
 * A deck of cards with one mastery threshold (class Deck): which card to
 * show next and how many cards are mastered. Neither query changes the
 * deck or its cards.
 */
module Decks {
  import opened History
  import opened Cards

  /** The number of cards of the sequence that are mastered under the threshold. */
  function MasteredCount(cards: seq<Card>, threshold: real): (n: nat)
    reads cards
    ensures n <= |cards|
    ensures n == |cards| <==> forall i :: 0 <= i < |cards| ==> Mastery(cards[i].responses, threshold).0
    ensures n == 0 <==> forall i :: 0 <= i < |cards| ==> !Mastery(cards[i].responses, threshold).0
  {
    if cards == [] then 0
    else
      MasteredCount(cards[..|cards| - 1], threshold)
      + (if Mastery(cards[|cards| - 1].responses, threshold).0 then 1 else 0)
  }

  class Deck {
    const cards: seq<Card>
    const timeThreshold: real

    constructor (cards: seq<Card>, timeThreshold: real)
      ensures this.cards == cards && this.timeThreshold == timeThreshold
    {
      this.cards := cards;
      this.timeThreshold := timeThreshold;
    }

    /** c.is_mastered(self.time_threshold)[0] */
    predicate Mastered(c: Card)
      reads c
    {
      Mastery(c.responses, timeThreshold).0
    }

    /** c.is_mastered(self.time_threshold)[1] */
    function MasteryTime(c: Card): real
      reads c
    {
      Mastery(c.responses, timeThreshold).1
    }

    /** Deck.progress: (number of mastered cards, number of cards). */
    method Progress() returns (completed: nat, total: nat)
      ensures completed == MasteredCount(cards, timeThreshold) && total == |cards|
      ensures completed <= total
      ensures completed == total <==> forall i :: 0 <= i < |cards| ==> Mastered(cards[i])
    {
      completed := 0;
      for i := 0 to |cards|
        invariant completed == MasteredCount(cards[..i], timeThreshold)
      {
        assert cards[..i + 1][..i] == cards[..i];
        if Mastered(cards[i]) {
          completed := completed + 1;
        }
      }
      assert cards[..|cards|] == cards;
      total := |cards|;
    }

    /**
     * Deck.get_card: some unmastered card when there is one (the source
     * draws it with secrets.choice; here any of them may be chosen); when
     * all are mastered, the first card whose mastery time is the largest,
     * as Python's max keeps the first maximal element. An empty deck makes
     * max raise, so the deck must not be empty.
     */
    method GetCard() returns (c: Card)
      requires cards != []
      ensures c in cards
      ensures (exists i :: 0 <= i < |cards| && !Mastered(cards[i])) ==> !Mastered(c)
      ensures (forall i :: 0 <= i < |cards| ==> Mastered(cards[i])) ==>
        exists k :: 0 <= k < |cards| && cards[k] == c
          && (forall j :: 0 <= j < |cards| ==> MasteryTime(cards[j]) <= MasteryTime(c))
          && (forall j :: 0 <= j < k ==> MasteryTime(cards[j]) < MasteryTime(c))
    {
      var onDeck: seq<nat> := [];
      for i := 0 to |cards|
        invariant forall p :: 0 <= p < |onDeck| ==> onDeck[p] < i && !Mastered(cards[onDeck[p]])
        invariant forall j :: 0 <= j < i && !Mastered(cards[j]) ==> j in onDeck
      {
        if !Mastered(cards[i]) {
          onDeck := onDeck + [i];
        }
      }
      if |onDeck| > 0 {
        var p :| 0 <= p < |onDeck|;
        c := cards[onDeck[p]];
      } else {
        var best := 0;
        for j := 1 to |cards|
          invariant best < j
          invariant forall m :: 0 <= m < j ==> MasteryTime(cards[m]) <= MasteryTime(cards[best])
          invariant forall m :: 0 <= m < best ==> MasteryTime(cards[m]) < MasteryTime(cards[best])
        {
          if MasteryTime(cards[j]) > MasteryTime(cards[best]) {
            best := j;
          }
        }
        c := cards[best];
      }
    }
  }
}
