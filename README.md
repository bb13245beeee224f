# Yahtzee rules engine in Dafny

A model of the rules engine of a five-dice, thirteen-category Yahtzee game, with
proofs about it. The original is written in Python. Four modules:

- `Wrappers` (`wrappers.dfy`): `Option` for Python's `None` and `Result` for
  operations that raise.
- `Scoring` (`scoring.dfy`): the category helpers of `yahtzee.py`. These are the
  per-face counts (`number_counts`, a method with a loop, specified by the
  function `Counts`), the single-number tally (`tally_numbers`), of-a-kind, full
  house and the two straights.
- `Yahtzee` (`yahtzee.dfy`): two classes.
  - `Round` is one turn. It holds five dice in an `array<Die>` and a roll
    counter. The constructor makes the first roll. `Roll` re-draws the dice
    that are not kept and refuses a fourth roll.
  - `Player` is the scorecard. It holds thirteen optional slots, the
    bonus-Yahtzee counter and the number of rounds played. It offers
    `RecordRound`, `OpenSlots`, `CurrentScores` and `TotalScore`.
- `Cli` (`cli.dfy`): the keep-mask parser `parse` of the command-line front end.

A die is the subset type `Die` (1..6). The source gets its dice from
`random.randint(1, 6)`. Here the caller passes five draws, one per position, to
the constructor and to every `Roll`. A roll uses the draw of each position it
does not keep.

These quirks of the source are reproduced, not fixed:

- `OpenSlots` lists only the empty slots among 0..11. Slot 12 (chance) never
  appears, so a card whose only empty slot is chance lists nothing
  (`NoOpenSlotsOnceTwelveFilled`).
- The index check of `record_round` lets 13 through. The list access then fails
  with Python's `IndexError` rather than the game's `InvalidAction`. The model
  returns a distinct error, `IndexOutOfRange`, for it.
- The small-straight formula tests faces 3 and 6 where a 3-4-5-6 run needs faces
  5 and 6. So faces 3, 4 and 6 alone count as a small straight
  (`SmallStraightAcceptsGap`, `SmallStraightIff`).
- The bonus-Yahtzee check runs whatever slot is being recorded into.

`record_round` stores a reference to the round's own dice list. The model stores
the dice as a value, a snapshot taken when the round is recorded. The two differ
only if a round is rolled again after being recorded, and neither caller does
that (`train.py` and `cli.py` make a new round each turn). So under these
callers the model behaves as the code does.

## Model

| member | source | states |
|---|---|---|
| `Scoring.Count` | yahtzee.py:153-157 | the count of a face never exceeds the number of dice |
| `Scoring.CountIsMultiplicity` | yahtzee.py:153-157 | the count of a face, tallied die by die, is the face's multiplicity in the roll |
| `Scoring.CountPositiveIffPresent` | yahtzee.py:153-157 | a face's count is positive exactly when some die shows that face |
| `Scoring.CountAllIffUniform` | yahtzee.py:153-157 | a face's count equals the number of dice exactly when every die shows that face |
| `Scoring.NumberCounts` | yahtzee.py:153-157 | the loop returns six counts, and entry `f - 1` is the number of dice showing face `f` |
| `Scoring.CountsSumToLength` | yahtzee.py:153-157 | the six face counts add up to the number of dice, which is 5 for a roll |
| `Scoring.SortDesc` | yahtzee.py:163 | the sorted counts are a permutation of the counts, in descending order |
| `Scoring.SortedHeadIsMax` | yahtzee.py:163-164 | the first sorted count is one of the counts and is at least every count |
| `Scoring.SortDescSum` | yahtzee.py:170 | sorting keeps the total of the counts |
| `Scoring.Matching` | yahtzee.py:149 | the filtered list holds only dice equal to the number, as many as the roll has |
| `Scoring.TallyNumbers` | yahtzee.py:144-150 | an empty slot gives the empty value; otherwise the result is the number times the count of that face |
| `Scoring.OfKindIff` | yahtzee.py:160-164 | `is_of_kind(d, n)` holds exactly when some face shows on at least `n` dice |
| `Scoring.OfKindMonotone` | yahtzee.py:160-164 | of-a-kind for `n` implies it for every smaller count, so four of a kind is three of a kind |
| `Scoring.FiveOfKindIffUniform` | yahtzee.py:160-164 | for five dice, of-a-kind 5 holds exactly when all dice show the same face |
| `Scoring.SortedFullHouseShape` | yahtzee.py:170-171 | six counts adding up to five, once sorted, start with 5 or with 3 then 2 exactly when one count is 5 or one is 3 and another 2 |
| `Scoring.FullHouseIff` | yahtzee.py:167-171 | for five dice, a full house is five of a kind, or three of one face and two of another |
| `Scoring.FiveOfKindIsFullHouse` | yahtzee.py:160-171 | five of a kind counts as a full house |
| `Scoring.FullHouseIsThreeOfKind` | yahtzee.py:160-171 | a full house holds three of a kind |
| `Scoring.SmallStraightIff` | yahtzee.py:174-185 | the formula accepts every run of four faces (1-4, 2-5, 3-6) and also any roll showing faces 3, 4 and 6 |
| `Scoring.SmallStraightAcceptsGap` | yahtzee.py:178-184 | 3,4,6,6,6 is scored as a small straight although it holds no run of four faces |
| `Scoring.LargeStraightIff` | yahtzee.py:188-198 | a large straight is exactly a run of five faces, 1-5 or 2-6 |
| `Scoring.LargeStraightIsSmallStraight` | yahtzee.py:174-198 | every large straight is a small straight |
| `Scoring.StraightsOfTwoTwoThreeFourFive` | yahtzee.py:174-198 | 2,2,3,4,5 is a small straight and not a large one |
| `Yahtzee.Round.constructor` | yahtzee.py:10-19 | a new round has rolled once (`rolls == 1`), and its five dice are the given draws |
| `Yahtzee.Round.Roll` | yahtzee.py:21-45 | with fewer than three rolls made, it adds one roll, kept dice keep their value, the other dice take the draws, and it returns the new dice; otherwise it fails with the roll-limit error and changes nothing, so `rolls` stays within 1..3 |
| `Yahtzee.RollLimitScenario` | yahtzee.py:29-30 | after the first roll and two more rolls, a fourth roll fails whatever is kept and drawn |
| `Yahtzee.Player.constructor` | yahtzee.py:49-66 | a new scorecard has thirteen empty slots, no bonus, no round played, and a total of 0 |
| `Yahtzee.EmptyIndices` | yahtzee.py:69 | the comprehension yields exactly the empty slot indices in the range, in ascending order |
| `Yahtzee.Player.OpenSlots` | yahtzee.py:68-69 | the result holds exactly the empty slots among 0..11, ascending; slot 12 is never listed |
| `Yahtzee.NoOpenSlotsOnceTwelveFilled` | yahtzee.py:68-69 | once slots 0..11 are filled no slot is open, even with chance still empty |
| `Yahtzee.Filled` | yahtzee.py:87 | the number of filled slots never exceeds the number of slots |
| `Yahtzee.FilledAfterRecord` | yahtzee.py:85-87 | filling an empty slot adds exactly one to the number of filled slots |
| `Yahtzee.FilledAllIff` | yahtzee.py:87-90 | the number of filled slots equals the number of slots exactly when every slot is filled |
| `Yahtzee.Player.RecordRound` | yahtzee.py:71-90 | fails for an index below 0 or above 13, for index 13 (a distinct error) and for a filled slot, changing nothing in each case. Otherwise it fills exactly that slot with the round's dice and adds one round. The number of rounds stays equal to the number of filled slots. It returns true exactly when all thirteen slots are filled. The bonus counter goes up by one exactly when slot 11 already holds five of a kind and the new dice are five of a kind, whatever the target slot |
| `Yahtzee.Player.CurrentScores` | yahtzee.py:92-119 | one entry per slot, thirteen in all |
| `Yahtzee.CurrentScoresMeaning` | yahtzee.py:92-119 | an entry is empty exactly when its slot is. An upper slot scores its face times that face's count. The Yahtzee slot scores 50 exactly when all five dice agree. Chance scores the sum of the dice |
| `Yahtzee.UpperScoresMatch` | yahtzee.py:122-129 | the upper section of the total equals the sum of the current scores of slots 0..5 |
| `Yahtzee.LowerScoresMatch` | yahtzee.py:130-139 | the lower section of the total, without the bonus Yahtzees, equals the sum of the current scores of slots 6..12 |
| `Yahtzee.TotalScoreDecomposes` | yahtzee.py:121-141 | the total is the sum of the filled slots' current scores, plus 35 when slots 0..5 add up to at least 63, plus 100 per bonus Yahtzee |
| `Cli.DigitValue` | cli.py:40 | a character has an integer value exactly when it is an ASCII digit, and the value is that digit |
| `Cli.KeepMask` | cli.py:38-42 | five flags; flag `k` is set exactly when the character for position `k + 1` occurs in the input |
| `Cli.Parse` | cli.py:37-45 | accepts exactly the inputs made only of '1'..'5' and then returns five flags, equal to `KeepMask`. Otherwise it fails at the first other character: an out-of-range error for a digit, a not-an-integer error for a non-digit |
| `Cli.EmptyInputKeepsNothing` | cli.py:38-45 | the empty input keeps no die |
| `Cli.KeepMaskIgnoresOrder` | cli.py:39-42 | two inputs made of the same characters give the same flags, whatever the order and repetition |
| `Cli.RejectedCharacters` | cli.py:40-44 | a character is rejected exactly when it is '0', a digit from 6 to 9, or not a digit |

## Left out

- Randomness: `random.randint(1, 6)` becomes five caller-supplied draws in 1..6, one per position. The source draws only for the positions it re-rolls, in position order. The model does not capture how many values a roll takes from the random stream.
- `Round.__init__` starts from five `None` placeholders before its first roll. The model's array holds arbitrary die values at that point, and they are overwritten before the constructor returns.
- `Round.roll` has five keep parameters that default to `False`. The model takes one five-flag sequence, and the constructor passes all `false`.
- The aliasing between a recorded scorecard slot and the round's dice list is not modelled: slots hold value snapshots (see above).
- Exception messages (yahtzee.py:30, 73, 76 and cli.py:44) are not modelled; only which error is raised is.
- `sorted(..., reverse=True)` is modelled by an insertion sort whose contract (a descending permutation) is all the proofs use.
- `Cli.DigitValue`: Python's `int` also accepts non-ASCII Unicode decimal digits (for example a full-width '3'). The model treats only ASCII '0'..'9' as digits, so such characters are rejected as non-integers here.
- The truthiness tests `if self.scores[12]` and `self.scores[11] and ...` are modelled as "the slot is filled". A filled slot always holds five dice, so it is never an empty (false) list.
- `Yahtzee.Player.CurrentScores`: its own contract gives only the length. What the entries mean is stated in `CurrentScoresMeaning`. The values of slots 6..10 are given only by its definition.
- `Yahtzee.Player.TotalScore`, `UpperSection` and `LowerSection` carry no contract of their own. Their properties are the lemmas `TotalScoreDecomposes`, `UpperScoresMatch` and `LowerScoresMatch`, and the `Player` constructor's total of 0.
- `cli.py` `run` and `print_scorecard`: interactive prompting and printing, including the 1-based to 0-based slot conversion, are not modelled.
- agent.py (a neural network with floating-point training) is not part of this model. Neither is train.py (the training loop, weight files and option handling, including its 5-bit keep-mask decode).
