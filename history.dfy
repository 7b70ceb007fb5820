/**
 * The attempt history of a card (ResponseMetadata and the queries of Card
 * that are expressions over Card.responses): correct counts, the mastery
 * rule, total time and the ordering used by the worst-cards report.
 */
module History {

  /** One attempt: whether it was right, the text typed, and the seconds it took. */
  datatype Response = Response(correct: bool, answer: string, time: real)

  function Last(rs: seq<Response>): Response
    requires rs != []
  {
    rs[|rs| - 1]
  }

  /** [r.correct for r in rs].count(True) */
  function NumCorrect(rs: seq<Response>): (n: nat)
    ensures n <= |rs|
  {
    if rs == [] then 0 else (if rs[0].correct then 1 else 0) + NumCorrect(rs[1..])
  }

  /** The attempts that were wrong, counted on their own. */
  function NumIncorrect(rs: seq<Response>): nat
  {
    if rs == [] then 0 else (if rs[0].correct then 0 else 1) + NumIncorrect(rs[1..])
  }

  /** Every attempt is either right or wrong, so len - num_correct counts the wrong ones. */
  lemma {:induction false} CorrectPlusIncorrect(rs: seq<Response>)
    ensures NumCorrect(rs) + NumIncorrect(rs) == |rs|
  {
    if rs != [] {
      CorrectPlusIncorrect(rs[1..]);
    }
  }

  lemma {:induction false} NumCorrectAppend(rs: seq<Response>, r: Response)
    ensures NumCorrect(rs + [r]) == NumCorrect(rs) + (if r.correct then 1 else 0)
  {
    if rs != [] {
      assert (rs + [r])[1..] == rs[1..] + [r];
      NumCorrectAppend(rs[1..], r);
    }
  }

  /**
   * Card.is_mastered: (true, time of the last attempt) when there are more
   * right than wrong attempts and the last one was right and faster than
   * the threshold; (false, 0) otherwise.
   */
  function Mastery(rs: seq<Response>, threshold: real): (bool, real)
  {
    var numCorrect := NumCorrect(rs);
    var numIncorrect := |rs| - numCorrect;
    if |rs| > 0 && numCorrect > numIncorrect && Last(rs).correct && Last(rs).time < threshold then
      (true, Last(rs).time)
    else
      (false, 0.0)
  }

  /** The mastery rule in terms of the two independent counts. */
  lemma MasteredIff(rs: seq<Response>, threshold: real)
    ensures Mastery(rs, threshold).0 <==>
      rs != [] && NumCorrect(rs) > NumIncorrect(rs) && Last(rs).correct && Last(rs).time < threshold
    ensures Mastery(rs, threshold).1 == if Mastery(rs, threshold).0 then Last(rs).time else 0.0
  {
    CorrectPlusIncorrect(rs);
  }

  /**
   * Mastery after one more attempt: the card is mastered exactly when that
   * attempt is right and under the threshold and, before it, the right
   * attempts were at least as many as the wrong ones.
   */
  lemma MasteryAfterAttempt(rs: seq<Response>, r: Response, threshold: real)
    ensures Mastery(rs + [r], threshold).0 <==>
      r.correct && r.time < threshold && NumCorrect(rs) >= |rs| - NumCorrect(rs)
    ensures Mastery(rs + [r], threshold).1 == if Mastery(rs + [r], threshold).0 then r.time else 0.0
  {
    NumCorrectAppend(rs, r);
  }

  /** A wrong attempt always loses mastery, whatever came before. */
  lemma WrongAttemptUnmasters(rs: seq<Response>, r: Response, threshold: real)
    requires !r.correct
    ensures Mastery(rs + [r], threshold) == (false, 0.0)
  {
  }

  /** One lucky fast answer does not master a card with more wrong than right attempts. */
  lemma LuckyGuessDoesNotMaster(rs: seq<Response>, r: Response, threshold: real)
    requires NumCorrect(rs) < NumIncorrect(rs)
    ensures !Mastery(rs + [r], threshold).0
  {
    CorrectPlusIncorrect(rs);
    MasteryAfterAttempt(rs, r, threshold);
  }

  /** The comparison with the threshold is strict: an answer taking exactly the threshold is too slow. */
  lemma AtThresholdNotMastered(rs: seq<Response>, threshold: real)
    requires rs != [] && Last(rs).time == threshold
    ensures !Mastery(rs, threshold).0
  {
  }

  /** A card mastered under a threshold stays mastered under a larger one, with the same time. */
  lemma MasteryMonotone(rs: seq<Response>, threshold: real, larger: real)
    requires threshold <= larger && Mastery(rs, threshold).0
    ensures Mastery(rs, larger) == Mastery(rs, threshold)
  {
  }

  /** Card.time: the sum of the times of all attempts. */
  function TotalTime(rs: seq<Response>): real
  {
    if rs == [] then 0.0 else rs[0].time + TotalTime(rs[1..])
  }

  lemma {:induction false} TotalTimeAppend(rs: seq<Response>, r: Response)
    ensures TotalTime(rs + [r]) == TotalTime(rs) + r.time
  {
    if rs != [] {
      assert (rs + [r])[1..] == rs[1..] + [r];
      TotalTimeAppend(rs[1..], r);
    }
  }

  lemma {:induction false} TotalTimeBounds(rs: seq<Response>, limit: real)
    requires forall i :: 0 <= i < |rs| ==> 0.0 <= rs[i].time <= limit
    ensures 0.0 <= TotalTime(rs) <= |rs| as real * limit
  {
    if rs != [] {
      TotalTimeBounds(rs[1..], limit);
    }
  }

  /**
   * Card.__lt__ as written: a card with fewer attempts is smaller; otherwise
   * (also when it has MORE attempts) the total times decide.
   */
  predicate Less(a: seq<Response>, b: seq<Response>)
  {
    if |a| < |b| then true else TotalTime(a) < TotalTime(b)
  }

  lemma LessIrreflexive(a: seq<Response>)
    ensures !Less(a, a)
  {
  }

  /**
   * Less is not asymmetric: one attempt of 2.0 s and three attempts of
   * 1/3 s each are each smaller than the other.
   */
  lemma LessNotAsymmetric()
    ensures var a := [Response(true, "5", 2.0)];
            var b := [Response(true, "5", 1.0 / 3.0), Response(true, "5", 1.0 / 3.0), Response(true, "5", 1.0 / 3.0)];
            Less(a, b) && Less(b, a)
  {
  }

  /** The ordering evidently intended: by number of attempts, and by total time between equals. */
  predicate IntendedLess(a: seq<Response>, b: seq<Response>)
  {
    |a| < |b| || (|a| == |b| && TotalTime(a) < TotalTime(b))
  }

  /** IntendedLess is a strict weak order, so sorting by it does not depend on the sort algorithm. */
  lemma IntendedLessIsStrictWeakOrder(a: seq<Response>, b: seq<Response>, c: seq<Response>)
    ensures !IntendedLess(a, a)
    ensures IntendedLess(a, b) ==> !IntendedLess(b, a)
    ensures IntendedLess(a, b) && IntendedLess(b, c) ==> IntendedLess(a, c)
    ensures !IntendedLess(a, b) && !IntendedLess(b, a) && !IntendedLess(b, c) && !IntendedLess(c, b)
            ==> !IntendedLess(a, c) && !IntendedLess(c, a)
  {
  }

  /** The ordering as written differs from the intended one exactly on a card with more attempts but less total time. */
  lemma LessDiffersExactly(a: seq<Response>, b: seq<Response>)
    ensures Less(a, b) != IntendedLess(a, b) <==> |a| > |b| && TotalTime(a) < TotalTime(b)
  {
  }
}
