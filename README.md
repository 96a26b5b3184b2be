# Texas Hold'em hand evaluator

This project models the hand evaluator of a Texas Hold'em poker game and proves properties of the model.

A player's two private cards and the shared board form one pool. The pool is sorted by descending rank. It is then grouped by rank (larger groups first, ties broken by higher rank) and by suit (in order of first appearance). A cascade of checks runs from StraightFlush down to HighCard, and the first check that succeeds decides the category. A `HandEvaluation` records:

- the category's integer value;
- a primary value and a secondary value;
- a kicker.

Among the evaluated players, the winners are found by four filters in a row: the best category, then the highest primary value, then the highest secondary value, then the greatest kicker in lexicographic order. Everyone still level after the four filters wins.

Cards are immutable (rank, suit) pairs. Their text form is `[<rank symbol><suit symbol>]`.

The model follows the code as written, including these behaviours:

- The straight check scans the distinct ranks upwards, with a 1 added when an Ace is present. It reports the top of the lowest run of five. So A-2-3-4-5-6 scores 5.
- A full house needs a rank held exactly three times and another held exactly twice. Two sets of three fall through to three of a kind.
- Only the four-of-a-kind and high-card results carry a kicker. The straight-flush, straight, full-house, three-of-a-kind, two-pair and one-pair checks compute a kicker that the cascade drops; the flush check computes none.
- The four-of-a-kind kicker lists the other rank groups in group order, larger groups first. For four twos with a pair of threes and a nine, the kicker is [3, 3, 9].
- RoyalFlush exists as a category value but is never produced. An ace-high straight flush is a StraightFlush.

Standard poker rules would keep every kicker, report the highest straight and count two sets of three as a full house; the model follows the code.

Modules:

- **Cards** (`cards.dfy`): the card, its symbols, its text form, and a parser used as the text form's partner.
- **Pool** (`pool.dfy`): the stable descending sort, rank counts, rank groups, suit groups, and rank-sequence helpers.
- **Straights** (`straights.dfy`): the straight scan. It has two forms:
  - the methods `IsStraight` and `IsStraightFlush`, with the source's loops;
  - the specification `StraightHigh` that those methods meet.
- **Evaluator** (`evaluator.dfy`):
  - the categories and results;
  - the category checks and the cascade `Classify`;
  - `Evaluate`, the function that specifies `EvaluatePlayer`;
  - the methods `EvaluatePlayer` and `EvaluateBoard`.
- **Classification** (`classification.dfy`):
  - each check stated as a test on the pool's rank counts, suits and ranks;
  - the category of every pool;
  - the result of each branch of the cascade.
- **Values** (`values.dfy`): what the primary, secondary and kicker values mean in each category, stated on the pool.
- **Winner** (`winner.dfy`):
  - the methods `CompareKickers` and `EvaluateWinner`, with their loops;
  - their specification functions;
  - the proof that the winners are exactly the results that are at least as good as every other, in input order.
- **Scenarios** (`scenarios.dfy`): the evaluator's unit-test hands, and concrete hands that show the behaviours listed above.

## Model

| member | source | states |
|---|---|---|
| Cards.ToString | Core/Card.cs:11-41 | The text form has four characters: '[', the rank symbol, the suit symbol, ']'. |
| Cards.RankSymbolUnknown | Core/Card.cs:22-37 | A rank is shown as '?' exactly when it lies outside Two..Ace. |
| Cards.RankSymbolRoundTrip | Core/Card.cs:22-37 | Each valid rank has a symbol that reads back to that rank, so no two valid ranks share a symbol. |
| Cards.SuitSymbolRoundTrip | Core/Card.cs:13-20 | Each suit's symbol reads back to that suit, so the four suit symbols are distinct. |
| Cards.ParseToString | Core/Card.cs:11-41 | Reading a valid card's text form back gives the same card. |
| Cards.ToStringInjective | Core/Card.cs:6-41 | Two valid cards with the same text form are the same card, with the same rank and suit as constructed. |
| Pool.SortByRankDescMultiset | Src/Logic/Evaluator.cs:59-61 | Sorting by descending rank keeps exactly the same cards. |
| Pool.RankGroups | Src/Logic/Evaluator.cs:63-66 | The rank groups are ordered by count descending, then by rank descending, and each group's count is how many cards of its rank the pool holds. |
| Pool.RankGroupsComplete | Src/Logic/Evaluator.cs:63-66 | Every rank present in the pool has its group, with its full count. |
| Pool.RankGroupsUnique | Src/Logic/Evaluator.cs:63-66 | The rank groups are the only sorted list that holds each present rank with its count. |
| Pool.SuitGroupsSpec | Src/Logic/Evaluator.cs:68-69 | Each suit group is all the cards of one suit, and every suit present has a group. |
| Pool.FirstWithCountIsTop | Src/Logic/Evaluator.cs:149 | The first group of k cards exists exactly when some rank is held k times, and it is the highest such rank. |
| Pool.AtMostFourOfARank | Src/Logic/Evaluator.cs:145-162 | In a pool without repeated cards, no rank is held more than four times. |
| Straights.StraightHighSpec | Src/Logic/Evaluator.cs:172-193 | A straight is found exactly when five consecutive ranks are present, with an Ace also counting as 1. Its high card is the top of the lowest such run. |
| Straights.IsStraight | Src/Logic/Evaluator.cs:172-193 | The upward scan over the distinct ranks (with a 1 for an Ace) finds a straight exactly when StraightHigh does, and returns its high card, or 0 when there is none. |
| Straights.WheelIsFiveHigh | Src/Logic/Evaluator.cs:179-180 | A-2-3-4-5 is a straight with high card 5. |
| Straights.LowestRunWins | Src/Logic/Evaluator.cs:183-191 | A-2-3-4-5-6 scores 5, although 2-3-4-5-6 is also a run. |
| Straights.StraightNeedsFiveRanks | Src/Logic/Evaluator.cs:183-186 | A set of ranks that holds a straight has at least five members. |
| Straights.FirstSuitStraightSpec | Src/Logic/Evaluator.cs:163-171 | The straight-flush check succeeds exactly when some suit group holds a straight, and it reports the high card of such a group. |
| Straights.IsStraightFlush | Src/Logic/Evaluator.cs:163-171 | The loop over the suit groups stops at the first group with a straight and returns its high card. |
| Evaluator.LargestGroup | Src/Logic/Evaluator.cs:216 | The group chosen is one of the suit groups, and no suit group is larger. |
| Evaluator.Classify | Src/Logic/Evaluator.cs:57-105 | The category value lies between HighCard and StraightFlush, so RoyalFlush is never produced. Only FourOfAKind and HighCard results carry a non-empty kicker. |
| Evaluator.EvaluatePlayer | Src/Logic/Evaluator.cs:57-105 | The method returns the evaluation of the player's hand and the board, as specified by Evaluate. |
| Evaluator.EvaluateAllAt | Src/Logic/Evaluator.cs:46-56 | The collected results are one per player: the i-th pairs the i-th player with the evaluation of their hand and the board. |
| Evaluator.EvaluateBoard | Src/Logic/Evaluator.cs:46-56 | The loop collects the results EvaluateAll describes, in player order. |
| Classification.FourTest | Src/Logic/Evaluator.cs:145-162 | The four-of-a-kind check succeeds exactly when some rank is held exactly four times. |
| Classification.FullHouseTest | Src/Logic/Evaluator.cs:194-212 | The full-house check succeeds exactly when some rank is held exactly three times and some rank exactly twice. |
| Classification.SuitedStraightTest | Src/Logic/Evaluator.cs:163-171 | The straight-flush check succeeds exactly when the cards of some suit hold a straight. |
| Classification.FlushTest | Src/Logic/Evaluator.cs:213-224 | The flush check succeeds exactly when some suit has five cards or more. |
| Classification.StraightTest | Src/Logic/Evaluator.cs:85 | The straight found in the sorted cards is the one found in the pool. |
| Classification.ThreeTest | Src/Logic/Evaluator.cs:225-244 | The three-of-a-kind check succeeds exactly when some rank is held exactly three times. |
| Classification.TwoPairTest | Src/Logic/Evaluator.cs:257-274 | The two-pair check succeeds exactly when two different ranks are each held exactly twice. |
| Classification.OnePairTest | Src/Logic/Evaluator.cs:292-299 | The one-pair check succeeds exactly when some rank is held exactly twice. |
| Classification.SuitedStraightIsFlush | Src/Logic/Evaluator.cs:163-224 | Every pool with a straight flush also has a flush. |
| Classification.EvaluateCategory | Src/Logic/Evaluator.cs:57-105 | Every evaluable pool gets the category given by the cascade of tests on its rank counts, suits and ranks. |
| Values.FourKicker | Src/Logic/Evaluator.cs:155-159 | The four-of-a-kind kicker holds every card whose rank is not held four times, each rank as often as it occurs. |
| Values.FourOfAKindValues | Src/Logic/Evaluator.cs:75-76 | A FourOfAKind result names the highest rank held four times and has secondary 0. Its kicker holds exactly the other cards' ranks. |
| Values.StraightFlushValues | Src/Logic/Evaluator.cs:72-73 | A StraightFlush result is the high card of a straight within one suit, with secondary 0 and no kicker. |
| Values.FullHouseValues | Src/Logic/Evaluator.cs:78-79 | A FullHouse result names the highest rank held exactly three times and the highest held exactly twice, with no kicker. |
| Values.FlushValues | Src/Logic/Evaluator.cs:81-82 | A Flush result is the top rank of a largest suit, which has five cards or more, with secondary 0 and no kicker. |
| Values.StraightValues | Src/Logic/Evaluator.cs:84-85 | A Straight result is exactly (Straight, the pool's StraightHigh, 0, no kicker). |
| Values.ThreeSecondary | Src/Logic/Evaluator.cs:240-253 | The secondary value is the highest rank other than the trips, or 0 when there is none. |
| Values.ThreeOfAKindValues | Src/Logic/Evaluator.cs:87-88 | A ThreeOfAKind result names the highest rank held exactly three times and the highest other rank, with no kicker. |
| Values.TwoPairRanks | Src/Logic/Evaluator.cs:267-276 | The two pair ranks are both held exactly twice, the first is higher, and every other pair rank is lower than the second. |
| Values.TwoPairValues | Src/Logic/Evaluator.cs:90-91 | A TwoPair result names the two highest pair ranks, higher first, with no kicker. |
| Values.OnePairValues | Src/Logic/Evaluator.cs:93-94 | A OnePair result names the highest rank held exactly twice, with secondary 0 and no kicker. |
| Values.OnePairIgnoresKickers | Src/Logic/Evaluator.cs:93-94 | Two one-pair pools with the same pair ranks evaluate equally, whatever their other cards. |
| Values.HighCardValues | Src/Logic/Evaluator.cs:96-104 | A HighCard result lists every rank of the pool in descending order. It lists them in strictly descending order when no card repeats. |
| Values.DescendingWithoutRepeats | Src/Logic/Evaluator.cs:308-314 | A descending sequence with no repeated value is strictly descending. |
| Winner.LexCompareRange | Src/Logic/Evaluator.cs:128-144 | The kicker comparison returns -1, 0 or 1. |
| Winner.LexCompareZero | Src/Logic/Evaluator.cs:128-144 | Two kickers compare equal exactly when they are the same sequence. |
| Winner.LexCompareAntisymmetric | Src/Logic/Evaluator.cs:128-144 | Swapping the kickers negates the comparison. |
| Winner.LexCompareTransitive | Src/Logic/Evaluator.cs:128-144 | "At least as great" between kickers is transitive. |
| Winner.CompareKickers | Src/Logic/Evaluator.cs:128-144 | The loop over the common prefix, followed by the comparison of lengths, computes the lexicographic comparison. |
| Winner.MaxField | Src/Logic/Evaluator.cs:108 | The maximum of a field is attained by some result and is at least every result's value. |
| Winner.WithField | Src/Logic/Evaluator.cs:111-113 | The filter keeps exactly the results whose field has the given value. |
| Winner.WithKicker | Src/Logic/Evaluator.cs:124-125 | The filter keeps exactly the results whose kicker compares equal to the given one. |
| Winner.KickerFoldSpec | Src/Logic/Evaluator.cs:123-124 | Keeping the first strictly greater kicker ends at a kicker that is the start or one of the results', and at least every one of them. |
| Winner.MaxKickerSpec | Src/Logic/Evaluator.cs:123-124 | The greatest kicker belongs to some result and is at least every result's kicker. |
| Winner.MaxOfField | Src/Logic/Evaluator.cs:108 | The loop computes the field's maximum. |
| Winner.KeepField | Src/Logic/Evaluator.cs:111-113 | The loop computes the filter on a field value. |
| Winner.MaxKickerOf | Src/Logic/Evaluator.cs:123-124 | The loop computes the greatest kicker, keeping the first of equals. |
| Winner.KeepKicker | Src/Logic/Evaluator.cs:124-125 | The loop computes the filter on the kicker. |
| Winner.EvaluateWinner | Src/Logic/Evaluator.cs:106-127 | The winners are the four filters applied in a row to a non-empty list of results. |
| Winner.SurvivorsAreBest | Src/Logic/Evaluator.cs:106-127 | A result passes all four filters exactly when it is at least as good as every result. |
| Winner.WinnersAreBest | Src/Logic/Evaluator.cs:106-127 | The winners are exactly the results at least as good as all others, in input order. |
| Winner.WinnersNonEmpty | Src/Logic/Evaluator.cs:106-127 | A non-empty list of results always has a winner. |
| Winner.WinnersTie | Src/Logic/Evaluator.cs:106-127 | All winners have equal evaluations (a split pot). |
| Scenarios.SuitedRun | Src/Logic/Evaluator.cs:163-193 | Five consecutive cards of one suit make a straight flush available. |
| Scenarios.NoStraightNoSuitedStraight | Src/Logic/Evaluator.cs:163-193 | A pool with no straight has no straight flush either. |
| Scenarios.FourOfAKindGroups | Src/Logic/Evaluator.cs:75-76 | A four-of-a-kind pool evaluates to the quad rank and the check's kicker over the pool's rank groups. |
| Scenarios.StraightFlushScenario | Tests/Logic/EvaluatorTest.cs:9-25 | 2-3-4-5-6 of hearts with 7 and 8 evaluates as StraightFlush. |
| Scenarios.FourOfAKindScenario | Tests/Logic/EvaluatorTest.cs:28-44 | Four twos with 6, 7 and 8 evaluate as FourOfAKind. |
| Scenarios.FullHouseScenario | Tests/Logic/EvaluatorTest.cs:47-63 | Three twos and two threes with 7 and 8 evaluate as FullHouse. |
| Scenarios.FlushScenario | Tests/Logic/EvaluatorTest.cs:66-82 | Five hearts with 3 and Jack evaluate as Flush. |
| Scenarios.StraightScenario | Tests/Logic/EvaluatorTest.cs:85-101 | 2 to 8 in mixed suits evaluate as Straight. |
| Scenarios.ThreeOfAKindScenario | Tests/Logic/EvaluatorTest.cs:104-120 | Three twos with 4, 5, 6 and 7 evaluate as ThreeOfAKind. |
| Scenarios.TwoPairScenario | Tests/Logic/EvaluatorTest.cs:123-139 | Twos and fours with 3, 6 and 7 evaluate as TwoPair. |
| Scenarios.OnePairScenario | Tests/Logic/EvaluatorTest.cs:142-158 | A pair of twos with 3, 4, 5, 7 and 8 evaluates as OnePair. |
| Scenarios.HighCardScenario | Tests/Logic/EvaluatorTest.cs:161-177 | Ace, King, 3, 4, 5, 7 and 8 evaluate as HighCard. |
| Scenarios.FourWithPairCheck | Src/Logic/Evaluator.cs:155-159 | Over the groups (2 x4, 3 x2, 9 x1), the four-of-a-kind check gives quad 2 and kicker [3, 3, 9]. |
| Scenarios.FourKickerFollowsGroups | Src/Logic/Evaluator.cs:155-159 | Four twos, two threes and a nine evaluate to (FourOfAKind, 2, 0, [3, 3, 9]). |
| Scenarios.TwoTripsAreThreeOfAKind | Src/Logic/Evaluator.cs:194-212 | Three Kings and three sevens with a two are ThreeOfAKind, Kings over seven, not a full house. |

## Left out

- Card's constructor is the datatype constructor `Card(rank, suit)`. It needs no member of its own.
- `PrintCard`: console colours are output only.
- The `rankNames` display table is not modelled.
- The `?` branch of the suit symbol cannot be reached, because the suit is a four-valued type.
- Ranks are integers. Evaluation requires every rank to lie in Two..Ace, as the rank enumeration does. Pools holding other integers are not modelled.
- Evaluation requires at least two cards:
  - with none, the flush check reads a missing group and the source fails;
  - with one, the high-card check reads a second card that does not exist.
- `EvaluateWinner` requires a non-empty list, because the source's `Max` throws on an empty one.
- The kicker out-parameter of IsStraight, which IsStraightFlush passes on, is not modelled, because the cascade never reads it. The kickers of the full-house, three-of-a-kind, two-pair and one-pair checks are computed and then dropped, as in the source.
- CompareKickers' reference-equality and null shortcuts are not modelled. Kickers are values here and are never null.
- Player is reduced to a name and a hand. Its other fields, the dealer, the server and the program entry point are not part of this model.
- Values.FlushValues: states that the primary is the top rank of *a* largest suit. The tie-break among equally large suits (first appearance in the sorted cards) is not stated. It can only matter with ten or more cards.
- Values.StraightFlushValues: states that the primary is the high card of a straight in *some* suit, not which suit is taken first when several qualify.
- Values.FourOfAKindValues: states the kicker's contents, not their order. The order is shown on a concrete hand by Scenarios.FourKickerFollowsGroups, through Scenarios.FourOfAKindGroups and Pool.RankGroupsUnique.
- Scenarios: the unit tests assert only the category, so only the category is proved for them.
