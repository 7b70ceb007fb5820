/**
 * An arithmetic flashcard (class Arithmetic with the generic parts of its
 * base class Card): a prompt, the integer answer, and the attempt history
 * that log_response grows by one record per call.
 */
module Cards {
  import opened Decimal
  import opened History

  /** The best time reported for a card that was never answered right. */
  const NoBestTime: real := 10000.0

  class Card {
    const problem: string
    const answer: int
    var responses: seq<Response>

    constructor (problem: string, answer: int)
      ensures this.problem == problem && this.answer == answer
      ensures responses == []
    {
      this.problem := problem;
      this.answer := answer;
      responses := [];
    }

    /** Arithmetic._check_answer: right when the text reads as the card's answer; unreadable text is wrong. */
    function CheckAnswer(given: string): bool
    {
      ParseInt(given) == Some(answer)
    }

    /** Card.log_response: every attempt is recorded, readable or not, and its verdict is returned. */
    method LogResponse(given: string, time: real) returns (correct: bool)
      modifies this
      ensures correct == CheckAnswer(given)
      ensures responses == old(responses) + [Response(correct, given, time)]
    {
      correct := CheckAnswer(given);
      responses := responses + [Response(correct, given, time)];
    }

    /**
     * The best time shown by Card.__str__: the least time of a right
     * attempt, or NoBestTime when there is none (or none below it).
     */
    method BestTime() returns (best: real)
      ensures best <= NoBestTime
      ensures forall i :: 0 <= i < |responses| && responses[i].correct ==> best <= responses[i].time
      ensures best == NoBestTime || exists i :: 0 <= i < |responses| && responses[i].correct && responses[i].time == best
    {
      best := NoBestTime;
      for k := 0 to |responses|
        invariant best <= NoBestTime
        invariant forall i :: 0 <= i < k && responses[i].correct ==> best <= responses[i].time
        invariant best == NoBestTime || exists i :: 0 <= i < k && responses[i].correct && responses[i].time == best
      {
        var r := responses[k];
        if r.correct && r.time < best {
          best := r.time;
        }
      }
    }
  }

  /** The text of a number is accepted exactly when it is the card's answer. */
  lemma CheckAnswerOfShown(c: Card, m: int)
    ensures c.CheckAnswer(Show(m)) <==> m == c.answer
  {
    ParseShow(m);
  }

  /** Text that int() would reject is judged wrong rather than raising. */
  lemma CheckAnswerUnreadable(c: Card, given: string)
    requires ParseInt(given) == None
    ensures !c.CheckAnswer(given)
  {
  }
}
