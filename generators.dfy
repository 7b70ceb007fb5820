/**
 * The deck generators generate_addition, generate_subtraction,
 * generate_multiplication and generate_division. Each is the list
 * comprehension [Arithmetic(prompt(x, y), answer(x, y)) for x in a for y in b]
 * over integer ranges: first the questions as values, then a deck of fresh
 * cards built from them.
 */
module Generators {
  import opened Decimal
  import opened History
  import opened Cards
  import opened Decks

  /** The prompt and the answer of one card to be generated. */
  datatype Question = Question(problem: string, answer: int)

  /** Python's range(lo, hi). */
  function Range(lo: int, hi: int): (r: seq<int>)
    ensures |r| == if lo < hi then hi - lo else 0
    ensures forall i :: 0 <= i < |r| ==> r[i] == lo + i
    decreases hi - lo
  {
    if lo < hi then [lo] + Range(lo + 1, hi) else []
  }

  /** [f(x, y) for x in xs for y in ys] */
  function Comprehension(xs: seq<int>, ys: seq<int>, f: (int, int) -> Question): (r: seq<Question>)
    ensures |r| == |xs| * |ys|
  {
    if xs == [] then []
    else seq(|ys|, j requires 0 <= j < |ys| => f(xs[0], ys[j])) + Comprehension(xs[1..], ys, f)
  }

  /** x varies in the outer loop and y in the inner one. */
  lemma {:induction false} ComprehensionAt(xs: seq<int>, ys: seq<int>, f: (int, int) -> Question, i: nat, j: nat)
    requires i < |xs| && j < |ys|
    ensures i * |ys| + j < |Comprehension(xs, ys, f)|
    ensures Comprehension(xs, ys, f)[i * |ys| + j] == f(xs[i], ys[j])
  {
    if i > 0 {
      ComprehensionAt(xs[1..], ys, f, i - 1, j);
      assert i * |ys| + j == |ys| + ((i - 1) * |ys| + j);
    }
  }

  /** Every element of the comprehension is f applied to some x of xs and some y of ys. */
  lemma {:induction false} ComprehensionMember(xs: seq<int>, ys: seq<int>, f: (int, int) -> Question, k: nat)
    requires k < |Comprehension(xs, ys, f)|
    ensures exists i, j :: 0 <= i < |xs| && 0 <= j < |ys| && Comprehension(xs, ys, f)[k] == f(xs[i], ys[j])
  {
    if k < |ys| {
      assert Comprehension(xs, ys, f)[k] == f(xs[0], ys[k]);
    } else {
      ComprehensionMember(xs[1..], ys, f, k - |ys|);
      var i, j :| 0 <= i < |xs| - 1 && 0 <= j < |ys| && Comprehension(xs[1..], ys, f)[k - |ys|] == f(xs[1..][i], ys[j]);
      assert Comprehension(xs, ys, f)[k] == f(xs[i + 1], ys[j]);
    }
  }

  function AdditionOf(x: int, y: int): Question {
    Question(Show(x) + " + " + Show(y) + " = ", x + y)
  }

  function SubtractionOf(x: int, y: int): Question {
    Question(Show(x + y) + " - " + Show(x) + " = ", y)
  }

  function MultiplicationOf(x: int, y: int): Question {
    Question(Show(x) + " \U{00D7} " + Show(y) + " = ", x * y)
  }

  function DivisionOf(x: int, y: int): Question {
    Question(Show(x * y) + " \U{00F7} " + Show(x) + " = ", y)
  }

  /** range(start, stop + 1): the operands of a generated deck. */
  function Operands(start: int, stop: int): seq<int> {
    Range(start, stop + 1)
  }

  /** The number of operands from start to stop inclusive. */
  function NumOperands(start: int, stop: int): nat {
    if start <= stop then stop - start + 1 else 0
  }

  function AdditionQuestions(start: int, stop: int): seq<Question> {
    Comprehension(Operands(start, stop), Operands(start, stop), AdditionOf)
  }

  function SubtractionQuestions(start: int, stop: int): seq<Question> {
    Comprehension(Operands(start, stop), Operands(start, stop), SubtractionOf)
  }

  function MultiplicationQuestions(start: int, stop: int): seq<Question> {
    Comprehension(Operands(start, stop), Operands(start, stop), MultiplicationOf)
  }

  /** The divisor runs from max(1, start), so that no card divides by zero. */
  function DivisionQuestions(start: int, stop: int): seq<Question> {
    Comprehension(Operands(if start < 1 then 1 else start, stop), Operands(start, stop), DivisionOf)
  }

  /** The sizes of the four decks: every pair of operands once. */
  lemma GeneratorSizes(start: int, stop: int)
    ensures |AdditionQuestions(start, stop)| == NumOperands(start, stop) * NumOperands(start, stop)
    ensures |SubtractionQuestions(start, stop)| == NumOperands(start, stop) * NumOperands(start, stop)
    ensures |MultiplicationQuestions(start, stop)| == NumOperands(start, stop) * NumOperands(start, stop)
    ensures |DivisionQuestions(start, stop)| == NumOperands(if start < 1 then 1 else start, stop) * NumOperands(start, stop)
  {
  }

  /**
   * With x running over lo..stop and y over start..stop, card i * n + j
   * (n the number of values of y) is built from lo + i and start + j.
   */
  lemma GridAt(lo: int, start: int, stop: int, f: (int, int) -> Question, i: nat, j: nat)
    requires i < NumOperands(lo, stop) && j < NumOperands(start, stop)
    ensures i * NumOperands(start, stop) + j < |Comprehension(Operands(lo, stop), Operands(start, stop), f)|
    ensures Comprehension(Operands(lo, stop), Operands(start, stop), f)[i * NumOperands(start, stop) + j]
         == f(lo + i, start + j)
  {
    var xs, ys := Operands(lo, stop), Operands(start, stop);
    assert |ys| == NumOperands(start, stop) && xs[i] == lo + i && ys[j] == start + j;
    ComprehensionAt(xs, ys, f, i, j);
  }

  lemma AdditionLayout(start: int, stop: int, i: nat, j: nat)
    requires i < NumOperands(start, stop) && j < NumOperands(start, stop)
    ensures i * NumOperands(start, stop) + j < |AdditionQuestions(start, stop)|
    ensures AdditionQuestions(start, stop)[i * NumOperands(start, stop) + j]
         == Question(Show(start + i) + " + " + Show(start + j) + " = ", (start + i) + (start + j))
  {
    GridAt(start, start, stop, AdditionOf, i, j);
  }

  lemma SubtractionLayout(start: int, stop: int, i: nat, j: nat)
    requires i < NumOperands(start, stop) && j < NumOperands(start, stop)
    ensures i * NumOperands(start, stop) + j < |SubtractionQuestions(start, stop)|
    ensures SubtractionQuestions(start, stop)[i * NumOperands(start, stop) + j]
         == Question(Show((start + i) + (start + j)) + " - " + Show(start + i) + " = ", start + j)
  {
    GridAt(start, start, stop, SubtractionOf, i, j);
  }

  lemma MultiplicationLayout(start: int, stop: int, i: nat, j: nat)
    requires i < NumOperands(start, stop) && j < NumOperands(start, stop)
    ensures i * NumOperands(start, stop) + j < |MultiplicationQuestions(start, stop)|
    ensures MultiplicationQuestions(start, stop)[i * NumOperands(start, stop) + j]
         == Question(Show(start + i) + " \U{00D7} " + Show(start + j) + " = ", (start + i) * (start + j))
  {
    GridAt(start, start, stop, MultiplicationOf, i, j);
  }

  lemma DivisionLayout(start: int, stop: int, i: nat, j: nat)
    requires i < NumOperands(if start < 1 then 1 else start, stop) && j < NumOperands(start, stop)
    ensures i * NumOperands(start, stop) + j < |DivisionQuestions(start, stop)|
    ensures var x, y := (if start < 1 then 1 else start) + i, start + j;
      DivisionQuestions(start, stop)[i * NumOperands(start, stop) + j]
         == Question(Show(x * y) + " \U{00F7} " + Show(x) + " = ", y)
  {
    GridAt(if start < 1 then 1 else start, start, stop, DivisionOf, i, j);
  }

  /** No division card has divisor 0, and its answer times the divisor is the dividend shown. */
  lemma DivisionNoZeroDivisor(start: int, stop: int, k: nat)
    requires k < |DivisionQuestions(start, stop)|
    ensures exists x, y :: (1 <= x <= stop && start <= y <= stop
      && DivisionQuestions(start, stop)[k] == DivisionOf(x, y) && (x * y) / x == y)
  {
    var xs := Operands(if start < 1 then 1 else start, stop);
    var ys := Operands(start, stop);
    ComprehensionMember(xs, ys, DivisionOf, k);
    var i, j :| 0 <= i < |xs| && 0 <= j < |ys| && DivisionQuestions(start, stop)[k] == DivisionOf(xs[i], ys[j]);
    ExactQuotient(xs[i], ys[j]);
  }

  /** Dividing x * y by a positive x gives back y. */
  lemma ExactQuotient(x: int, y: int)
    requires x >= 1
    ensures (x * y) / x == y
  {
    var q, r := (x * y) / x, (x * y) % x;
    assert x * q + r == x * y && 0 <= r < x;
    var d := y - q;
    assert x * d == x * y - x * q;
    assert x * d == r;
    if d > 0 {
      PositiveFactor(x, d);
    } else if d < 0 {
      PositiveFactor(x, -d);
    }
  }

  /** A positive multiple of x is at least x. */
  lemma PositiveFactor(x: int, d: int)
    requires x >= 1 && d >= 1
    ensures x * d >= x
  {
    assert x * d == x * (d - 1) + x;
    assert x * (d - 1) >= 0;
  }

  /** The deck holds fresh, distinct cards with the questions' prompts and answers and no attempts yet. */
  ghost predicate DeckOf(d: Deck, qs: seq<Question>, timeThreshold: real)
    reads d.cards
  {
    && d.timeThreshold == timeThreshold
    && |d.cards| == |qs|
    && (forall i :: 0 <= i < |qs| ==>
          d.cards[i].problem == qs[i].problem && d.cards[i].answer == qs[i].answer && d.cards[i].responses == [])
    && (forall i, j :: 0 <= i < j < |qs| ==> d.cards[i] != d.cards[j])
  }

  /** Deck(cards, time_threshold) over new Arithmetic cards, one per question, in order. */
  method NewDeck(qs: seq<Question>, timeThreshold: real) returns (d: Deck)
    ensures fresh(d) && DeckOf(d, qs, timeThreshold)
    ensures forall i :: 0 <= i < |d.cards| ==> fresh(d.cards[i])
  {
    var cards: seq<Card> := [];
    for k := 0 to |qs|
      invariant |cards| == k
      invariant forall i :: 0 <= i < k ==> fresh(cards[i])
      invariant forall i :: 0 <= i < k ==>
        cards[i].problem == qs[i].problem && cards[i].answer == qs[i].answer && cards[i].responses == []
      invariant forall i, j :: 0 <= i < j < k ==> cards[i] != cards[j]
    {
      var c := new Card(qs[k].problem, qs[k].answer);
      cards := cards + [c];
    }
    d := new Deck(cards, timeThreshold);
  }

  method GenerateAddition(start: int, stop: int, timeThreshold: real) returns (d: Deck)
    ensures fresh(d) && DeckOf(d, AdditionQuestions(start, stop), timeThreshold)
    ensures forall i :: 0 <= i < |d.cards| ==> fresh(d.cards[i])
  {
    d := NewDeck(AdditionQuestions(start, stop), timeThreshold);
  }

  method GenerateSubtraction(start: int, stop: int, timeThreshold: real) returns (d: Deck)
    ensures fresh(d) && DeckOf(d, SubtractionQuestions(start, stop), timeThreshold)
    ensures forall i :: 0 <= i < |d.cards| ==> fresh(d.cards[i])
  {
    d := NewDeck(SubtractionQuestions(start, stop), timeThreshold);
  }

  method GenerateMultiplication(start: int, stop: int, timeThreshold: real) returns (d: Deck)
    ensures fresh(d) && DeckOf(d, MultiplicationQuestions(start, stop), timeThreshold)
    ensures forall i :: 0 <= i < |d.cards| ==> fresh(d.cards[i])
  {
    d := NewDeck(MultiplicationQuestions(start, stop), timeThreshold);
  }

  method GenerateDivision(start: int, stop: int, timeThreshold: real) returns (d: Deck)
    ensures fresh(d) && DeckOf(d, DivisionQuestions(start, stop), timeThreshold)
    ensures forall i :: 0 <= i < |d.cards| ==> fresh(d.cards[i])
  {
    d := NewDeck(DivisionQuestions(start, stop), timeThreshold);
  }
}
