# Texas Hold'em engine: hand evaluation, deck and Monte Carlo odds

This project models the game logic of a Texas Hold'em helper
(`poker-logic.js`) and proves properties of it:

- **Cards and the deck** (`cards.dfy`, `deck.dfy`). A card is a rank value
  (2..14, ace high) and a suit. The deck is a class whose `cards` sequence
  is built from the 52-card universe minus the excluded cards. It is
  shuffled in place by Fisher–Yates and dealt from the front by a splice.
- **Five-card subsets** (`combinations.dfy`). `getCombinations` is modelled
  as a recursive function. It yields C(n, k) lists, each a k-element
  subsequence, every such subsequence appears, and none appears twice.
- **The hand evaluator** (`hand_evaluator.dfy`, `hand_properties.dfy`,
  `hand_categories.dfy`). It covers:
  - the priority chain of `evaluate5Cards`;
  - `checkStraight`, `countRanks` and the base-15 kicker number of
    `getKickerValue`;
  - the best-of-all-subsets scan of `getBestFiveCardHand`;
  - `evaluateHand` and `compareHands`.

  The properties proved are:
  - what each of the ten categories means in terms of the suits, whether
    the ranks run, and how often each rank occurs (the sorted count list
    the chain tests holds the largest counts first);
  - that the result does not depend on the order of the cards;
  - that kicker numbers compare like the kicker lists;
  - that the scan returns the first maximum;
  - that compareHands is an order.
- **The odds calculator** (`odds_calculator.dfy`, `analysis.dfy`). It
  covers:
  - one simulated deal per trial (`simulateHand`) and the tally over many
    trials (`calculateOdds`);
  - `analyzeHand` and its draw detection (`detectDraws`).

  The random numbers of each shuffle are an input: a *tape* of 52 swap
  indices, with entry i in 0..i.
- **Shared sequence facts** (`sequences.dfy`): a descending sort (the
  model of the library sorts) and a first-occurrence dedup (the model of
  `new Set`).

Each loop of the source that updates state or accumulates a value is a
method with loop invariants, proved against a function that specifies it.
Where that function only computes, the row below names the lemma that
states what it means. The exception is `getCombinations`: its recursion and
its two nested loops only collect new lists. They are modelled as the
recursive functions `Combos`, `HeadedFrom` and `Prefixed`, which produce
the combinations in the same order.

## Model

| member | source | states |
|---|---|---|
| Cards.Equals | poker-logic.js:49-51 | two cards are equal exactly when rank and suit agree, which is identity of the (rank, suit) value |
| Decks.Deck.constructor | poker-logic.js:56-67 | the suit-by-suit, rank-by-rank loop leaves `cards` equal to the universe with every excluded card dropped, in visiting order |
| Decks.FreshDeckContents | poker-logic.js:56-67 | a fresh deck holds no card twice, and it holds a card exactly when that card is not in the exclusion list |
| Decks.FreshDeckSize | poker-logic.js:56-67 | a fresh deck has 52 minus the number of distinct excluded cards: at least 52 − \|excluded\|, and exactly that when the exclusion list has no repeats |
| Decks.Deck.Shuffle | poker-logic.js:69-74 | the in-place swap loop from the last index down to 1 leaves `cards` equal to the Fisher–Yates result for the tape |
| Decks.ShuffledPermutes | poker-logic.js:69-74 | a shuffle keeps the deck's size and its cards with their multiplicities (a permutation) |
| Decks.ShuffleReachesEveryPermutation | poker-logic.js:69-74 | every rearrangement of the deck is produced by some tape: the shuffle can reach each permutation |
| Decks.DealCount | poker-logic.js:76-78 | a splice at 0 removes n cards when 0 ≤ n ≤ length; it silently removes the whole deck when n exceeds it, and nothing when n is negative |
| Decks.Deck.Deal | poker-logic.js:76-78 | deal returns DealCount(n) cards; the returned cards followed by what remains are exactly the old deck |
| Combinations.Combos | poker-logic.js:262-275 | getCombinations(arr, k) returns C(\|arr\|, k) lists, each of length k and a subsequence of arr |
| Combinations.CombosBaseCases | poker-logic.js:263-264 | for k = \|arr\| the result is [arr]; for k = 1 it is the singletons in order |
| Combinations.CombosComplete | poker-logic.js:262-275 | every k-element subsequence of arr is among the combinations |
| Combinations.CombosNoDup | poker-logic.js:262-275 | over a list with distinct elements, no combination is returned twice |
| Combinations.FiveCardSubsetCounts | poker-logic.js:98-102 | seven cards give 21 five-card subsets, six give 6 and five give 1 |
| HandEvaluator.CheckStraight | poker-logic.js:216-238 | the loop computes StraightOf, the test evaluate5Cards uses; checkStraight reports a straight exactly for a run of consecutive values or the wheel A-5-4-3-2; the high card is the top value for a run, 5 for the wheel and 0 otherwise |
| HandProperties.StraightMeaning | poker-logic.js:216-238 | five valid ranks sorted high to low form a straight exactly when they are h, h−1, …, h−4 for some 6 ≤ h ≤ 14, or the wheel; the high card is h, or 5 for the wheel |
| HandEvaluator.CountRanks | poker-logic.js:240-246 | the loop computes RankCounts, the dictionary evaluate5Cards uses: it has an entry for exactly the ranks present, each equal to the number of cards of that rank |
| HandEvaluator.KickerOrder | poker-logic.js:250-254 | the kicker order is a rearrangement of the ranks present, sorted by count descending and then by rank descending |
| HandProperties.KickerOrderUnique | poker-logic.js:250-254 | any arrangement of the ranks sorted by that comparator is the kicker order, so the comparator fixes the order completely |
| HandEvaluator.GetKickerValue | poker-logic.js:248-260 | the loop folds the kicker order into value·15 + rank, which is the base-15 number of the kicker list; the pattern argument is not read |
| HandProperties.Base15Lex | poker-logic.js:256-258 | for digit lists of equal length with digits 0..14, the base-15 numbers compare exactly as the lists compare lexicographically, and are equal exactly when the lists are |
| HandEvaluator.Evaluate5 | poker-logic.js:113-214 | evaluate5Cards always returns a ranking between HIGH_CARD and ROYAL_FLUSH |
| HandProperties.Evaluate5PermutationInvariant | poker-logic.js:113-117 | evaluate5Cards gives the same result for any order of the same five cards |
| HandProperties.StraightValue | poker-logic.js:132-179 | STRAIGHT, STRAIGHT_FLUSH and ROYAL_FLUSH are valued by checkStraight's high card: h for five consecutive ranks topped by h, or 5 for the wheel |
| HandProperties.RoyalFlushMeaning | poker-logic.js:123-139 | ROYAL_FLUSH is exactly one suit with ranks A-K-Q-J-10, and its value is 14; STRAIGHT_FLUSH or better is exactly one suit that forms a straight |
| HandProperties.WheelIsFiveHigh | poker-logic.js:230-234 | A-5-4-3-2 is a straight (or a straight flush when suited) with value 5 |
| HandProperties.TopCardValue | poker-logic.js:163-170 | for FLUSH and HIGH_CARD the value is the highest rank among the five cards |
| HandProperties.TopCardTies | poker-logic.js:208-213 | two FLUSH or two HIGH_CARD hands whose highest rank is the same, in whatever order their cards come, compare as a tie, whatever the lower cards |
| HandProperties.HighCardKickersIgnored | poker-logic.js:208-213 | A-K-8-5-3 and A-Q-8-5-3 (mixed suits) both evaluate to HIGH_CARD with value 14, so they tie |
| HandProperties.HighCardHand | poker-logic.js:208-213 | five cards in any order, of distinct ranks, not all of one suit, whose sorted ranks are neither consecutive nor the wheel, give HIGH_CARD with the top sorted rank as value |
| HandCategories.ProfileMembers | poker-logic.js:142-143 | the sorted count list is descending, non-empty for a non-empty hand, and holds a number exactly when some rank occurs that many times |
| HandCategories.ProfileRepeat | poker-logic.js:142-143 | a count appears twice in the sorted count list exactly when two different ranks occur that many times |
| HandCategories.ProfileMax | poker-logic.js:142-143 | the first entry of the sorted count list is the largest count: some rank occurs that often and none more often |
| HandCategories.ProfileShape | poker-logic.js:145-206 | for five ranks, the chain's count tests mean: counts[0] = 4 is four of a rank; counts[0] = 3 is three of a rank; [3, 2] is three of one rank and two of another; [2, 2] is two different pairs; counts[0] = 2 is a pair and no three of a kind |
| HandCategories.Evaluate5Category | poker-logic.js:113-214 | evaluate5Cards returns, for any five cards, the category that the usual poker definitions give from one suit, a straight and how often each rank occurs |
| HandCategories.CategoryFacts | poker-logic.js:123-213 | under those definitions, each category holds exactly when its own condition holds (see the three lemmas below); the stronger categories are ruled out by counting five cards |
| HandCategories.MadeHandMeaning | poker-logic.js:132-161 | STRAIGHT_FLUSH is exactly a one-suit straight other than A-K-Q-J-10; FOUR_OF_KIND is exactly four cards of one rank; FULL_HOUSE is exactly three of one rank and two of another |
| HandCategories.FlushStraightMeaning | poker-logic.js:163-179 | FLUSH is exactly one suit without a straight, four of a kind or full house; STRAIGHT is exactly a straight of mixed suits |
| HandCategories.SetsAndPairsMeaning | poker-logic.js:181-213 | among cards of mixed suits: THREE_OF_KIND is exactly three of one rank with no pair beside; TWO_PAIR is exactly two different ranks twice each; PAIR is exactly one rank twice and every other once; HIGH_CARD is exactly no straight and no rank occurring two to four times |
| HandCategories.StraightCategories | poker-logic.js:123-179 | STRAIGHT, STRAIGHT_FLUSH and ROYAL_FLUSH are exactly the hands whose ranks are five consecutive values or the wheel |
| HandCategories.KickerCount | poker-logic.js:145-206 | the ranking fixes the length of the kicker list: two ranks for four of a kind and a full house, three for three of a kind and two pair, four for a pair |
| HandCategories.SameCategoryComparesKickers | poker-logic.js:145-206 | two hands with the same kicker-valued ranking (quads, full house, trips, two pair, pair) have kicker lists of equal length; compareHands is positive exactly when the first list is lexicographically larger, and zero exactly when the lists are equal |
| HandEvaluator.CompareHands | poker-logic.js:277-282 | compareHands is positive exactly when the first ranking is higher, or the rankings are equal and the first value is higher; it is zero exactly when the two results are equal |
| HandProperties.CompareHandsOrder | poker-logic.js:277-282 | compareHands is antisymmetric, a higher ranking always wins, and both "better" and "at least as good" are transitive |
| HandEvaluator.GetBestFiveCardHand | poker-logic.js:93-111 | with five cards the result is their evaluation; otherwise the replacement loop over all combinations ends on the running best of the scan |
| HandProperties.FirstBestIsFirstMaximum | poker-logic.js:99-108 | the scan ends on one of the scanned results; no result compares higher, and every result before it compares strictly lower, so the first of equal maxima is kept |
| HandProperties.BestHandIsFirstMaximum | poker-logic.js:93-111 | getBestFiveCardHand returns the evaluation of one five-card subset; no subset evaluates higher, and every subset enumerated before it evaluates strictly lower |
| HandEvaluator.EvaluateHand | poker-logic.js:83-91 | with fewer than five cards the result is HIGH_CARD with no value; otherwise it is the best five-card hand |
| OddsCalculator.VerdictSymmetry | poker-logic.js:340-344 | a win for one side is a loss for the other, and a tie happens exactly when the two results are equal |
| OddsCalculator.FoldBestIsFirstMaximum | poker-logic.js:330-338 | after at least one opponent, the best opponent hand is one of the dealt hands; none compares higher, and every earlier one compares strictly lower |
| OddsCalculator.TrialDeckDistinct | poker-logic.js:314-317 | a trial's shuffled deck holds no card twice and no card of the player or the board |
| OddsCalculator.BoardComplete | poker-logic.js:319-324 | after the top-up the board has at least five cards, and exactly five when at most five were given |
| OddsCalculator.HolesPartition | poker-logic.js:331-332 | the opponents' hole cards, in dealing order, followed by the undealt rest are exactly the deck they were dealt from |
| OddsCalculator.HolesFull | poker-logic.js:331-332 | when the deck holds at least two cards per opponent, every opponent receives two cards |
| OddsCalculator.TrialDealsDistinct | poker-logic.js:313-338 | in a trial the board's new cards, the hole cards and the rest split a deck with no repeats and no known card; with at most five community cards and at most 22 opponents every opponent gets two cards |
| OddsCalculator.DealOpponents | poker-logic.js:329-338 | the opponent loop leaves the deck without the dealt holes, and its best hand is the left-to-right fold that keeps the first strictly stronger hand |
| OddsCalculator.SimulateHand | poker-logic.js:313-345 | one simulated hand returns the verdict of the player's best hand against the strongest opponent, on the deal that the tape's shuffle produces |
| OddsCalculator.CountTotal | poker-logic.js:296-300 | every trial is counted as exactly one of win, tie or loss |
| OddsCalculator.WinRateBounds | poker-logic.js:302 | with at least one trial, the win rate (a tie counting half) lies between 0 and 100 |
| OddsCalculator.TallyBookkeeping | poker-logic.js:302-310 | wins + ties + losses = simulations = number of trials; losses are exactly the lost trials; the rate is absent exactly when there were no trials and otherwise lies in [0, 100] |
| OddsCalculator.CalculateOdds | poker-logic.js:287-311 | it fails exactly when the player does not hold two cards; otherwise it returns the tally of the first numSimulations trials |
| HandAnalysis.CountSuits | poker-logic.js:376-379 | the suit loop counts exactly the cards of each suit present, with the suits in order of first appearance |
| HandAnalysis.HasConsecutiveWindow | poker-logic.js:392-404 | the window loop succeeds exactly when some four neighbouring unique values step down by one |
| HandAnalysis.WindowIff | poker-logic.js:389-404 | over strictly descending values, a consecutive window exists exactly when four consecutive values v, v−1, v−2, v−3 all occur |
| HandAnalysis.DetectDraws | poker-logic.js:368-407 | detectDraws returns nothing once the board is complete; otherwise it returns the flush draws in suit order followed by at most one straight draw |
| HandAnalysis.FlushDrawIff | poker-logic.js:375-384 | a flush draw for suit s is reported exactly when the board is incomplete and exactly four cards are of suit s; its outs are 9 |
| HandAnalysis.OneFlushDraw | poker-logic.js:375-384 | with at most seven cards, at most one flush draw is reported |
| HandAnalysis.StraightDrawIff | poker-logic.js:386-404 | a straight draw is reported exactly when the board is incomplete and four consecutive rank values occur among the cards; its outs are 8 |
| HandAnalysis.OneStraightDraw | poker-logic.js:392-404 | the window scan stops at its first hit, so a straight draw can only be the last reported draw: at most one is reported |
| HandAnalysis.AnalyzeHand | poker-logic.js:347-366 | the result is null exactly when the player does not hold two cards; otherwise it is the evaluation of all cards and their draws |
| Sequences.SortDesc | poker-logic.js:114 | the sort by value, high to low, returns a descending rearrangement of its input |
| Sequences.Dedup | poker-logic.js:389 | the set of values keeps each value once and loses none |

## Left out

- Randomness: `Math.random` in `shuffle` is replaced by a tape of swap indices, one tape per trial, with entry i in 0..i. `calculateOdds` takes one tape per simulation.
- Display: the Hebrew hand names (`name` fields), `Card.toString` and the one-decimal string formatting of `winRate` (`toFixed(1)`) are not modelled. `winRate` is the exact rational percentage.
- OddsCalculator.WinRate: with zero simulations the source computes NaN. The model returns `None`.
- Ranks are modelled by their numeric value. The source compares rank symbols (`'A'`, `'K'`, `'5'` … `'2'`), and each symbol corresponds to exactly one value, so value comparisons are equivalent. The count dictionaries are keyed by value for the same reason.
- JavaScript object key order matters only in `detectDraws`' suit entries. It is modelled as order of first appearance, which is the order that string keys keep. In `getKickerValue` the entries are sorted by a total comparator, so their key order does not matter.
- The library sort and `new Set` are modelled as an insertion sort and a first-occurrence dedup. Only their results are used, and those are fixed by sortedness and permutation.
- OddsCalculator.CalculateOdds: requires `numOpponents ≥ 1`. With no opponent the source compares against `null` and throws a TypeError, which is not modelled. It also requires at least `numSimulations` tapes.
- OddsCalculator.SimulateHand: requires exactly two player cards. This is the only way `calculateOdds` calls it.
- `analyzeHand`'s second check (`allCards.length < 2`) is not modelled. It can never be true once the player holds two cards.
- The unused `allKnownCards` local of `calculateOdds` and the unused `pattern` argument of `getKickerValue` have no effect and are not modelled.
- Three loops are separate methods rather than inline loops:
  - HandAnalysis.CountSuits and HandAnalysis.HasConsecutiveWindow are `detectDraws`' suit loop and window loop;
  - OddsCalculator.DealOpponents is `simulateHand`'s opponent loop.

  Their contracts state the same state change as the inline loops.
- HandEvaluator.Evaluate5: it reads only the ranks of `sorted`. Which of two equal-valued cards the sort puts first is not modelled, because it affects no result.
- Combinations.HeadedFrom: the nested loops of `getCombinations` (lines 267-273) are modelled as recursion that yields the same lists in the same order. The pushes onto the result array are not modelled step by step.
- `app.js` (the browser interface) is not part of this model.
