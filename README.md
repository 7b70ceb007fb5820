# Flashcards drill engine, in Dafny

A model of the backend of a children's arithmetic flashcard program
(`flashcards.py`). It covers:

- an arithmetic card, with its prompt, its integer answer and its attempt history;
- how a typed answer is checked and every attempt is logged;
- the mastery rule;
- how a deck picks the next card and counts progress;
- the four generators that build addition, subtraction, multiplication and division decks.

Files, one module each:

- `decimal.dfy` (`Decimal`): the decimal integer text that the cards read and write. `ParseInt` stands for Python's `int()` on a typed answer. `Show` stands for `str()` of an int in a prompt.
- `history.dfy` (`History`): `Response` (the source's `ResponseMetadata`) and the pure queries over a card's history: correct counts, the mastery rule `Mastery`, the total time `TotalTime`, and the comparator `Less` (`Card.__lt__`).
- `cards.dfy` (`Cards`): class `Card`, the arithmetic card. It has the constant fields `problem` and `answer` and the field `responses: seq<Response>`. This field is only changed by `LogResponse`, which appends to it.
- `decks.dfy` (`Decks`): class `Deck`, with the constant fields `cards` and `timeThreshold`. It has the loops `Progress` and `GetCard`, and `MasteredCount`, the count that specifies `Progress`.
- `generators.dfy` (`Generators`): the generator list comprehensions as functions over values (`Comprehension`, `Range`, the four `...Questions` functions). `NewDeck` and the `Generate...` methods then allocate one fresh card per question.

Elapsed times and the mastery threshold are `real` numbers. A time is a parameter of `LogResponse`: the model reads no clock. The random choice in `get_card` is a nondeterministic choice among the unmastered cards.

The model follows `flashcards.py` as written:

- `log_response` returns a `bool` and records every attempt, including text that is not a number. The front end tests `fc.Card.Result.INCORRECT` and `fc.Card.Result.INVALID` (flashcards_gui.py:234, 243), but `flashcards.py` defines no such three-way outcome.
- `__lt__` compares total times whenever the left card has at least as many attempts as the right one, not only when the counts are equal (see Findings).
- The backend has no save/load functions: `load_deck` and `as_yaml_dict` are not defined in it (see Left out).

## Model

| member | source | states |
|---|---|---|
| Decimal.ParseInt | flashcards.py:97 | `int()` of the typed text, as written; see ParseShow, ParsePlusShow, ParseRejectsNonDigit and ParseRejectsNoDigits |
| Decimal.Show | flashcards.py:151 | the text of an int in the prompts of lines 151, 157, 163 and 169, as written; see ParseShow |
| Decimal.ParseShow | flashcards.py:95-99 | reading back the decimal text of any integer gives that integer |
| Decimal.ParsePlusShow | flashcards.py:95-99 | a leading `+` before the digits of a non-negative integer is accepted with the same value |
| Decimal.ParseRejectsNonDigit | flashcards.py:95-99 | text with a character that is neither a digit nor a leading sign does not parse |
| Decimal.ParseRejectsNoDigits | flashcards.py:95-99 | the empty text and a lone sign do not parse |
| Decimal.ShowNat | flashcards.py:151 | the text of a natural number is non-empty and made of digits only; see ShowNatNoLeadingZero and DigitsValueOfShowNat |
| Decimal.ShowNatNoLeadingZero | flashcards.py:151 | the text of a positive number does not start with `0`, as `str()` writes it |
| Decimal.ParseLeadingZeros | flashcards.py:95-99 | zeros typed in front of the digits of a number are accepted with the same value, as `int("007") == 7`, while the text stays within Python's digit limit (see Left out) |
| History.Response | flashcards.py:11-16 | `ResponseMetadata`: whether the attempt was right, the text typed and the seconds it took |
| History.NumCorrect | flashcards.py:73 | the number of right attempts, at most the number of attempts; see NumCorrectAppend and CorrectPlusIncorrect |
| History.Mastery | flashcards.py:72-79 | `is_mastered` as written; see MasteredIff and MasteryAfterAttempt |
| History.CorrectPlusIncorrect | flashcards.py:73-74 | the right and the wrong attempts, counted separately, add up to the number of attempts, so `len - num_correct` counts the wrong ones |
| History.NumCorrectAppend | flashcards.py:73 | one more attempt raises the correct count by one exactly when that attempt is right |
| History.MasteredIff | flashcards.py:72-79 | mastered iff there is an attempt, right attempts outnumber wrong ones, and the last attempt is right and strictly under the threshold; the time is the last attempt's when mastered and 0 otherwise |
| History.MasteryAfterAttempt | flashcards.py:63-79 | after one more attempt the card is mastered iff that attempt is right and under the threshold and the right attempts before it were at least as many as the wrong ones; the time returned is that attempt's |
| History.WrongAttemptUnmasters | flashcards.py:72-79 | a wrong last attempt gives `(false, 0)` whatever the history |
| History.LuckyGuessDoesNotMaster | flashcards.py:72-79 | one more attempt, however fast, does not master a card with more wrong than right attempts |
| History.AtThresholdNotMastered | flashcards.py:77 | a last attempt taking exactly the threshold is not fast enough |
| History.MasteryMonotone | flashcards.py:77-78 | a card mastered under a threshold is mastered, with the same time, under any larger one |
| History.TotalTime | flashcards.py:81-82 | `time()` as written; see TotalTimeAppend and TotalTimeBounds |
| History.TotalTimeAppend | flashcards.py:81-82 | one more attempt adds exactly its time to the card's total time |
| History.TotalTimeBounds | flashcards.py:81-82 | with every time in `[0, limit]`, the total lies in `[0, n * limit]` |
| History.Less | flashcards.py:54-58 | `__lt__` as written; see LessIrreflexive, LessNotAsymmetric and LessDiffersExactly |
| History.LessIrreflexive | flashcards.py:54-58 | no card is less than itself |
| History.LessNotAsymmetric | flashcards.py:54-58 | one attempt of 2.0 s and three attempts totalling 1.0 s are each less than the other |
| History.IntendedLessIsStrictWeakOrder | flashcards.py:54-58 | the count-then-time ordering is irreflexive, asymmetric and transitive, and its incomparability is transitive |
| History.LessDiffersExactly | flashcards.py:54-58 | the ordering as written and the intended one differ exactly when the left card has more attempts but a smaller total time |
| Cards.Card.constructor | flashcards.py:88-90 | `Arithmetic.__init__` sets the answer and, through `Card.__init__` (lines 35-38), the prompt and an empty list of attempts: a new card has the given prompt and answer and no attempts |
| Cards.Card.LogResponse | flashcards.py:63-66 | appends exactly one record `(verdict, given text, time)` after the earlier ones, which stay unchanged, and returns the verdict of `CheckAnswer` |
| Cards.Card.BestTime | flashcards.py:44-48 | the result is at most 10000 and at most every right attempt's time, and it is either 10000 or the time of some right attempt |
| Cards.Card.CheckAnswer | flashcards.py:95-99 | `Arithmetic._check_answer` as written; see CheckAnswerOfShown and CheckAnswerUnreadable |
| Cards.CheckAnswerOfShown | flashcards.py:95-99 | typing the decimal text of a number is judged right iff that number is the card's answer |
| Cards.CheckAnswerUnreadable | flashcards.py:95-99 | text that is not an integer is judged wrong instead of raising |
| Decks.MasteredCount | flashcards.py:140-145 | the count of mastered cards is at most the number of cards; it equals that number iff every card is mastered, and it is 0 iff none is |
| Decks.Deck.constructor | flashcards.py:107-109 | a deck holds the given cards and threshold |
| Decks.Deck.Mastered | flashcards.py:133 | `c.is_mastered(self.time_threshold)[0]`; see Progress and GetCard |
| Decks.Deck.MasteryTime | flashcards.py:138 | `c.is_mastered(self.time_threshold)[1]`, the key of `max`; see GetCard |
| Decks.Deck.Progress | flashcards.py:140-145 | returns the number of mastered cards and the number of cards, the first at most the second and equal to it iff all are mastered; the deck and its cards are left unchanged |
| Decks.Deck.GetCard | flashcards.py:130-138 | returns a card of the deck. That card is unmastered whenever some card is. When all cards are mastered, it is the first card whose mastery time is at least every other card's |
| Generators.Range | flashcards.py:149-150 | `range(lo, hi)` has `max(0, hi - lo)` elements, the i-th being `lo + i` |
| Generators.Comprehension | flashcards.py:151 | the double comprehension has `len(a) * len(b)` elements |
| Generators.ComprehensionAt | flashcards.py:151 | element `i * len(b) + j` is built from `a[i]` and `b[j]` (x outer, y inner) |
| Generators.ComprehensionMember | flashcards.py:169 | every element is built from some `x` of `a` and some `y` of `b` |
| Generators.GridAt | flashcards.py:149-151 | with `x` over `lo..stop` and `y` over `start..stop`, card `i * n + j` is built from `lo + i` and `start + j` |
| Generators.GeneratorSizes | flashcards.py:148-170 | addition, subtraction and multiplication yield `n * n` cards where `n = stop - start + 1` (0 when negative); division yields `m * n`, `m` counting from `max(1, start)` |
| Generators.AdditionOf | flashcards.py:151 | the card for the pair `(x, y)`: prompt `"x + y = "`, answer `x + y`; see AdditionLayout |
| Generators.SubtractionOf | flashcards.py:157 | the card for the pair `(x, y)`: prompt `"x+y - x = "`, answer `y`; see SubtractionLayout |
| Generators.MultiplicationOf | flashcards.py:163 | the card for the pair `(x, y)`: prompt `"x × y = "`, answer `x * y`; see MultiplicationLayout |
| Generators.DivisionOf | flashcards.py:169 | the card for the pair `(x, y)`: prompt `"x*y ÷ x = "`, answer `y`; see DivisionLayout and DivisionNoZeroDivisor |
| Generators.AdditionQuestions | flashcards.py:151 | the comprehension of `generate_addition`; see GeneratorSizes and AdditionLayout |
| Generators.SubtractionQuestions | flashcards.py:157 | the comprehension of `generate_subtraction`; see GeneratorSizes and SubtractionLayout |
| Generators.MultiplicationQuestions | flashcards.py:163 | the comprehension of `generate_multiplication`; see GeneratorSizes and MultiplicationLayout |
| Generators.DivisionQuestions | flashcards.py:167-169 | the comprehension of `generate_division`; see GeneratorSizes, DivisionLayout and DivisionNoZeroDivisor |
| Generators.AdditionLayout | flashcards.py:148-152 | card `i * n + j` has the prompt `"x + y = "` with `x = start + i`, `y = start + j` and the answer `x + y` |
| Generators.SubtractionLayout | flashcards.py:154-158 | card `i * n + j` has the prompt `"x+y - x = "` and the answer `y` |
| Generators.MultiplicationLayout | flashcards.py:160-164 | card `i * n + j` has the prompt `"x × y = "` and the answer `x * y` |
| Generators.DivisionLayout | flashcards.py:166-170 | card `i * n + j` has the prompt `"x*y ÷ x = "` with `x = max(1, start) + i` and the answer `y` |
| Generators.DivisionNoZeroDivisor | flashcards.py:166-170 | every division card has a divisor `x` between 1 and `stop`, and its answer `y` satisfies `(x * y) / x == y` |
| Generators.ExactQuotient | flashcards.py:169 | dividing `x * y` by a positive `x` gives back `y` |
| Generators.NewDeck | flashcards.py:151-152 | a fresh deck of fresh, distinct cards, one per question in order, with the question's prompt and answer and no attempts |
| Generators.GenerateAddition | flashcards.py:148-152 | the deck of the addition questions with the given threshold |
| Generators.GenerateSubtraction | flashcards.py:154-158 | the deck of the subtraction questions with the given threshold |
| Generators.GenerateMultiplication | flashcards.py:160-164 | the deck of the multiplication questions with the given threshold |
| Generators.GenerateDivision | flashcards.py:166-170 | the deck of the division questions with the given threshold |

## Left out

- The graphical front end (`flashcards_gui.py`): widgets, timers, file dialogs, configuration and log files. It only calls the backend. The caller step that clears `c.responses` on a loaded deck is not modelled either.
- The random source of `get_card` (`secrets.choice`): the model chooses any unmastered card nondeterministically. Uniformity and cryptographic strength are not modelled.
- Text formatting: `ResponseMetadata.__repr__`, `Card.__repr__`, `Card.__str__` apart from its best-time loop, `Arithmetic.__repr__`, `Deck.__repr__`, and the total-time text of `worst_cards`. These are float formatting for display.
- The order produced by `sorted(self.cards, reverse=True)` in `worst_cards`. It depends on Python's sorting algorithm because `__lt__` is not a strict weak order. Only the comparator is modelled.
- `Card.get_problem` and `Card.AnswerType`: an accessor, and an enum that nothing consults.
- The abstract `Card._check_answer`, which is a bare `raise`. The base `Card` and its only subclass `Arithmetic` are modelled as one class.
- The `__main__` block: it calls `Deck.complete()`, which does not exist.
- The `Result` enum, `load_deck` and `as_yaml_dict`, which the front end refers to. They are not part of this model: the backend does not define them.
- Decimal.ParseInt: accepts only an optional `+`/`-` followed by ASCII digits. Python's `int()` also accepts surrounding whitespace, underscores between digits and non-ASCII digits. The front end strips whitespace before calling. The model also has no digit limit, while CPython's `int()` (3.11 and later, and the 3.7.14, 3.8.14, 3.9.14 and 3.10.7 security releases) raises `ValueError` above 4300 digit characters, leading zeros included; such an answer is judged wrong by the source and may be judged right here, and `ParseLeadingZeros` holds for every number of zeros.
- Decimal.Show: has no digit limit, while CPython's `str()` of an int with more than 4300 digits raises `ValueError`; the prompts of lines 151, 157, 163 and 169 then raise, whereas `Show` and the `Generate...` methods still build a deck.
- Elapsed times are exact reals: rounding of float sums and comparisons is not modelled, nor are NaN or infinities.
- Decks.Deck.GetCard: requires a non-empty deck. On an empty deck Python's `max` raises `ValueError`, and nothing in the backend catches it.
- The default threshold of 5 seconds on `Deck` and on the generators is an explicit parameter here.

## Findings

| source | as written | input that shows it | evidently intended | confidence | as-written member | corrected member |
|---|---|---|---|---|---|---|
| flashcards.py:54-58 | `__lt__` compares total times whenever `self` has at least as many attempts as `other`, including when it has more | card A with one attempt of 2.0 s and card B with three attempts totalling 1.0 s give both `A < B` and `B < A`, so `sorted(..., reverse=True)` in `worst_cards` has no well-defined result | order by number of attempts, and by total time only between equal counts (a strict weak order) | medium; not executed | History.LessNotAsymmetric | History.IntendedLessIsStrictWeakOrder |
