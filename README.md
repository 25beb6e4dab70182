# Thirteen lanes and a shedding game, modelled in Dafny

The repository is a browser card-game suite with a Node server. Its main game is a
13-card poker variant, "thirteen lanes". Each player splits a dealt hand into a 3-card
top lane, a 5-card middle lane and a 5-card bottom lane. The lanes must not get weaker
from bottom to middle to top, or the player has fouled. The lanes of every pair of
players are then compared to settle a zero-sum round. A second game is a shedding game
in the style of Big Two: the player holding the three of clubs leads, each play must
beat the board, and passing goes round the table.

This project models the core of both games and proves what it promises:

- `ThirteenEval` is the server's hand evaluator and arrangement validator.
  It classifies 3- and 5-card lanes into a category and a tiebreak, orders two
  evaluations, checks an arrangement and compares two arrangements lane by lane.
- `ClientThirteenEval` is the client's copy of the evaluator, written on its own terms,
  with lemmas that it agrees with the server's.
- `BotArrange` is the bot search. It covers the k-combination generator, the
  exhaustive 5/5/3 partition search for the first best valid arrangement under an
  integer objective, the fallback split, the two stock objectives and the tiebreak
  score `evalToScore`.
- `Ledger` and `ServerRoom` are the server's round logic: the deck, the submission
  check with its multiset key, `allReady`, the bot's auto-arrangement, `scoreRound`
  with its foul override and sweep bonus, and `playAgain`. A `Room` class holds the
  players and the phase and updates them in place.
- `ThirteenLocal` is the client's local thirteen-lanes game. It covers
  `naiveAutoArrange`, `scorePairwise` and the state updaters for starting, placing
  and removing cards, locking in, the reveal scoring and the next round. A
  consistency invariant is kept by every step.
- `PairTally` and `Settlement` are the pairwise tally loops, shared by the reveal
  scoring and by the settlement view's per-lane net scores, plus the settlement
  view's seat map.
- `Cards`, `CardUtils`, `AiPlayer` and `SheddingGame` are the shedding game: the
  card utilities (decks, dealing, sorting, hand detection, `canPlayOn`), the
  computer player's candidate search and choice, and the turn and pass state machine.
- `Sorting`, `TextOrder` and `Wrappers` are shared helpers. They hold JavaScript's
  stable sort, string ordering for sort keys, and the `Option` and `Result` types.

JavaScript numbers are modelled as mathematical integers. Randomness (shuffling and
generated ids) is a parameter: a deck or an id is given to the operation.

## Model

| member | source | states |
|---|---|---|
| ThirteenEval.CompareEvalMeaning | server/utils/thirteenEval.js:6-15 | compareEval is positive exactly when the first evaluation has a higher category, or the same category and a higher tiebreak at the first position where the two differ (a missing entry read as -1). It is zero exactly when the categories and every padded position agree, and negative in the mirror case |
| ThirteenEval.CompareEvalAntisymmetric | server/utils/thirteenEval.js:6-15 | swapping the two evaluations negates compareEval |
| ThirteenEval.CompareEvalTransitive | server/utils/thirteenEval.js:6-15 | "at least as strong" (compareEval >= 0) is transitive |
| ThirteenEval.CountsByRank | server/utils/thirteenEval.js:17-24 | the Map holds each rank value once, with a positive count equal to the number of cards of that rank; the counts add up to the number of cards |
| ThirteenEval.CountsByRankLength | server/utils/thirteenEval.js:17-24 | the Map has one entry per distinct rank value |
| ThirteenEval.CountsByRankMultiset | server/utils/thirteenEval.js:17-24 | which entries the Map holds depends only on the multiset of ranks, not on card order |
| ThirteenEval.EntriesFacts | server/utils/thirteenEval.js:54-55 | the sorted entries run by count descending, then rank descending; they count every card once, and each records its rank's multiplicity |
| ThirteenEval.EntriesBounds | server/utils/thirteenEval.js:60-66 | the reads of entries[1] and entries[2] in evalFive (and of entries[1] in evalThree) are in bounds whenever their branch is reached, for any 5- or 3-card input |
| ThirteenEval.SortedRanksDescMeaning | server/utils/thirteenEval.js:26-28 | sortedRanksDesc is the cards' rank values as a multiset, in non-increasing order |
| ThirteenEval.IsFlushPermutation | server/utils/thirteenEval.js:30-32 | isFlush does not depend on card order |
| ThirteenEval.Dedup | server/utils/thirteenEval.js:36 | `new Set(values)` holds each value of the input exactly once |
| ThirteenEval.StraightHighMeaning | server/utils/thirteenEval.js:35-47 | for five cards, straightHigh returns h exactly when the ranks are the wheel (h = 3) or five consecutive ranks topped by h; any repeat or gap gives null |
| ThirteenEval.WheelIsLowestStraight | server/utils/thirteenEval.js:39-46 | the wheel scores 3, strictly below every other straight |
| ThirteenEval.EvalFive | server/utils/thirteenEval.js:49-50 | evalFive fails exactly when it is not given 5 cards, and otherwise returns a category in 0..8 |
| ThirteenEval.EvalFiveCategory | server/utils/thirteenEval.js:57-90 | the category is the strongest the five cards make, checked in the order straight flush, four of a kind, full house, flush, straight, trips, two pair, pair, high card |
| ThirteenEval.ClassifyFiveBranches | server/utils/thirteenEval.js:57-90 | the tiebreak each category gets: [quad rank, kicker]; [trips, pair]; [trips, kickers descending]; [high pair, low pair, kicker]; [pair, kickers descending]; all ranks descending for flush and high card; [straight high] for straights |
| ThirteenEval.PairShape | server/utils/thirteenEval.js:85-88 | a one-pair hand has one pair and three single ranks, and its tiebreak is the pair rank, then the singles in descending order |
| ThirteenEval.SixHighStraightFlushBeatsWheel | server/utils/thirteenEval.js:39-46 | a 2-to-6 straight flush evaluates to [8,[4]], the wheel straight flush to [8,[3]], and the first beats the second |
| ThirteenEval.EvalFivePermutation | server/utils/thirteenEval.js:49-91 | reordering five cards does not change evalFive's result |
| ThirteenEval.EvalThree | server/utils/thirteenEval.js:93-108 | evalThree fails exactly when it is not given 3 cards, and otherwise yields category 3, 1 or 0 only |
| ThirteenEval.EvalThreeCategory | server/utils/thirteenEval.js:99-106 | category 3 exactly when a rank occurs three times, and category 1 exactly when one occurs twice |
| ThirteenEval.EvalThreeTiebreak | server/utils/thirteenEval.js:99-107 | the tiebreak is [the trips rank], [the pair rank, the odd card], or all ranks descending |
| ThirteenEval.EvalThreePermutation | server/utils/thirteenEval.js:93-108 | reordering three cards does not change evalThree's result |
| ThirteenEval.IsValidArrangement | server/utils/thirteenEval.js:110-111 | a missing arrangement, or lane sizes other than 3/5/5, is never valid |
| ThirteenEval.IsValidArrangementMeaning | server/utils/thirteenEval.js:110-118 | with lane sizes 3/5/5 an arrangement is valid exactly when the bottom is at least the middle and the middle is at least the top; hence the bottom is at least the top |
| ThirteenEval.IsValidArrangementPermutation | server/utils/thirteenEval.js:110-118 | validity depends only on which cards each lane holds, not on their order |
| ThirteenEval.CompareArrangements | server/utils/thirteenEval.js:120-127 | the comparison succeeds exactly when both arrangements have lane sizes 3/5/5, and then every lane is -1, 0 or 1 |
| ThirteenEval.CompareArrangementsSwap | server/utils/thirteenEval.js:120-127 | swapping the two arrangements negates every lane |
| ThirteenEval.CompareArrangementsMeaning | server/utils/thirteenEval.js:123-125 | a lane is 1 exactly when the first side's lane outranks the other's, and 0 exactly when the two tie |
| Cards.RankValue | server/utils/thirteenEval.js:3-4 | a rank's value is its index, 0..12, in the poker order 2..A |
| Cards.CardKeyInjective | server/index.js:144-145 | two cards with the same `${rank}${suit}` key are the same card |
| Cards.CardKeyShape | server/index.js:144-145 | a card key is never empty and never contains the comma that joins keys |
| TextOrder.StringOrders | server/index.js:145 | the default string order that `.sort()` uses is a strict total order, and its non-strict form is an antisymmetric total preorder |
| TextOrder.JoinInjective | server/index.js:145 | joining comma-free, non-empty keys with "," can be undone: equal joins come from equal key lists |
| Sorting.SortBySorted | server/utils/thirteenEval.js:27 | the stable sort that models `Array.prototype.sort` returns a list ordered by its comparator |
| Sorting.SortedUnique | server/index.js:145 | two lists sorted by the same antisymmetric total order and holding the same multiset are equal, so a sort result does not depend on input order |
| Sorting.MapPermutation | server/index.js:145 | mapping over two permutations of each other gives permutations of each other |
| ClientThirteenEval.ClientCompareEvalAgrees | client/src/utils/thirteenEval.ts:27-36 | the client's compareEval equals the server's for every pair of evaluations |
| ClientThirteenEval.ClientCountsByRankAgrees | client/src/utils/thirteenEval.ts:38-45 | the client's countsByRank builds the server's Map, entry for entry and in the same order |
| ClientThirteenEval.ClientStraightHighAgrees | client/src/utils/thirteenEval.ts:58-72 | the client's straightHigh equals the server's on every non-empty input |
| ClientThirteenEval.ClientStraightOfAgrees | client/src/utils/thirteenEval.ts:60-71 | on any list of rank values, the client's length, wheel and run tests give the same straight as the server's |
| ClientThirteenEval.ClientIsFlushAgrees | client/src/utils/thirteenEval.ts:53-56 | the client's isFlush equals the server's |
| ClientThirteenEval.ClientEvalFive | client/src/utils/thirteenEval.ts:74-75 | the client's evalFive fails exactly when it is not given 5 cards |
| ClientThirteenEval.ClientEvalFiveAgrees | client/src/utils/thirteenEval.ts:74-126 | for every input the client's evalFive returns exactly the server's category and tiebreak, or the same error |
| ClientThirteenEval.ClientClassifyFiveAgrees | client/src/utils/thirteenEval.ts:83-125 | given the same flush flag, straight, entries and ranks, the client's chain of tests picks the server's category and tiebreak |
| ClientThirteenEval.ClientEvalThree | client/src/utils/thirteenEval.ts:128-129 | the client's evalThree fails exactly when it is not given 3 cards |
| ClientThirteenEval.ClientEvalThreeAgrees | client/src/utils/thirteenEval.ts:128-146 | for every input the client's evalThree returns exactly the server's result |
| ClientThirteenEval.ClientIsValidArrangementAgrees | client/src/utils/thirteenEval.ts:148-159 | on any arrangement that exists, the client's size and order rule is the server's; the client has no guard for a missing one |
| ClientThirteenEval.ExplainCategory | client/src/utils/thirteenEval.ts:161-173 | every category outside 1..8 is named with the default name |
| ClientThirteenEval.ExplainCategoryDistinct | client/src/utils/thirteenEval.ts:161-173 | categories 0..8 have pairwise different names |
| BotArrange.EvalToScore | server/utils/botArrange.js:14-25 | the loop packs the category times 10^9 plus six tiebreak slots, slot i as (value + 1) · 1000^(5 - i) with a missing value read as -1; the result is the as-written score |
| BotArrange.EvalToScoreMisorders | server/utils/botArrange.js:14-25 | for any pair of twos and any ace-high hand, compareEval ranks the pair higher, yet the as-written score puts it lower |
| BotArrange.ScoreOrder | server/utils/botArrange.js:14-17 | the corrected score, with the category weighted above all six slots, is greater exactly when compareEval is positive and equal exactly when it is zero |
| BotArrange.EvalFiveRankTiebreak | server/utils/thirteenEval.js:49-91 | every tiebreak evalFive builds holds at most five rank values in 0..12, so six slots suffice |
| BotArrange.EvalThreeRankTiebreak | server/utils/thirteenEval.js:93-108 | every tiebreak evalThree builds holds at most three rank values in 0..12 |
| BotArrange.CombinationsShape | server/utils/botArrange.js:35-43 | every selection the generator yields extends the prefix to k elements, taken from the array at strictly increasing positions |
| BotArrange.CombinationsCount | server/utils/botArrange.js:35-43 | the generator yields C(n - start, k - |prefix|) selections |
| BotArrange.ChoicesCount | server/utils/botArrange.js:35-43 | `combinations(arr, k)` yields C(|arr|, k) selections |
| BotArrange.CandidateCounts | server/utils/botArrange.js:51-58 | the search visits C(13,5) = 1287 bottoms and, for each, C(8,5) = 56 middles |
| BotArrange.RemainingByKeysMeaning | server/utils/botArrange.js:45-48 | remainingByKeys keeps exactly the cards whose key is not used, with their multiplicities and in their original order |
| BotArrange.CandidatePartition | server/utils/botArrange.js:56-60 | for a hand without repeated cards, every candidate has a 5-card bottom, 5-card middle and 3-card top whose multisets add up to the hand |
| BotArrange.BestOfFound | server/utils/botArrange.js:61-67 | the scan finds a candidate exactly when some candidate is valid |
| BotArrange.BestOfMaximal | server/utils/botArrange.js:61-67 | what the scan finds is a valid candidate that no valid candidate outscores |
| BotArrange.BestOfFirst | server/utils/botArrange.js:63 | every valid candidate before the one found scores strictly less, so ties keep the first |
| BotArrange.FallbackSplit | server/utils/botArrange.js:71-74 | the fallback is a 3/5/5 partition of a 13-card hand with every bottom card ranked at least every middle card, and every middle card at least every top card |
| BotArrange.PickBestArrangementExhaustive | server/utils/botArrange.js:50-76 | the nested loops over bottoms and middles return exactly the first best valid candidate of the enumeration, or the fallback |
| BotArrange.ScanRow | server/utils/botArrange.js:57-67 | the inner loop over the middles of one bottom leaves exactly the first best valid candidate of the candidates visited so far followed by that bottom's row |
| BotArrange.PickBestValid | server/utils/botArrange.js:61-70 | if any candidate is valid, the result is a valid candidate |
| BotArrange.PickBestMaximal | server/utils/botArrange.js:62-66 | no valid candidate has a greater objective than the result |
| BotArrange.PickBestFirst | server/utils/botArrange.js:63 | the result stands at a position before which every valid candidate scores strictly less |
| BotArrange.PickBestPartition | server/utils/botArrange.js:50-76 | for a 13-card hand without repeats the result, found or fallback, is a 3/5/5 partition of the hand |
| BotArrange.ArrangeNormal | server/utils/botArrange.js:80-93 | arrangeNormal, as written, is the first best valid candidate of the search under bottom·10^12 + middle·10^6 + top over the as-written evalToScore strengths |
| BotArrange.ArrangeCompetitive | server/utils/botArrange.js:95-107 | arrangeCompetitive, as written, is the same search under the weighted objective with the balance penalty, over the as-written strengths |
| BotArrange.HighCardCategory | server/utils/thirteenEval.js:57-90 | five cards of distinct ranks, not all of one suit and without a straight, are high card |
| BotArrange.OnePairCategory | server/utils/thirteenEval.js:57-90 | five cards, not all of one suit and without a straight, with one rank twice and no other rank repeated, are one pair led by that rank |
| BotArrange.HighCardEval | server/utils/thirteenEval.js:57-90 | such a high-card hand has five tiebreak values led by its highest rank |
| BotArrange.HighCardThree | server/utils/thirteenEval.js:93-108 | three cards of distinct ranks are high card with three tiebreak values led by the highest rank |
| BotArrange.PairOfTwosEval | server/utils/thirteenEval.js:49-91 | 2 2 3 4 6, not all of one suit, evaluates to one pair with the twos first |
| BotArrange.AceHighEval | server/utils/thirteenEval.js:49-91 | A K Q J 9, not all of one suit, evaluates to high card led by the ace |
| BotArrange.EightHighEval | server/utils/thirteenEval.js:93-108 | 5 7 8 evaluates to high card led by the eight |
| BotArrange.InvertedArrangement | server/utils/botArrange.js:27-33 | any 3/5/5 arrangement whose lanes evaluate to one pair of twos, ace high and eight high is valid, yet as written its middle strength exceeds its bottom strength and the competitive objective charges it no balance penalty |
| BotArrange.LaneStrengthsAsWrittenInverted | server/utils/botArrange.js:97-105 | as written, 2 2 3 4 6 at the bottom, A K Q J 9 in the middle and 5 7 8 on top is a valid arrangement whose middle outscores its bottom, so the competitive objective differs from the bottom·99 999 + middle·92 001 + top·75 000 the corrected score gives |
| BotArrange.CorrectedLaneStrengths | server/utils/botArrange.js:27-33 | with the corrected score, the lane strengths of a valid arrangement never increase from bottom to middle to top |
| BotArrange.CorrectedCompetitivePenalty | server/utils/botArrange.js:102-105 | with the corrected score, the balance penalty on a valid arrangement is exactly the bottom's lead over the middle |
| BotArrange.ArrangeNormalCorrected | server/utils/botArrange.js:80-93 | arrangeNormal with the corrected score: the first best valid candidate under the same objective over the corrected strengths |
| BotArrange.ArrangeCompetitiveCorrected | server/utils/botArrange.js:95-107 | arrangeCompetitive with the corrected score: the first best valid candidate under the same weighted objective over the corrected strengths |
| Ledger.AwardAt | server/index.js:163-167 | moving x from seat t to seat s raises s by x, lowers t by x, and leaves every other seat as it was |
| Ledger.AwardSum | server/index.js:163-167 | moving points from one seat to another keeps the sum of all seats |
| ServerRoom.DeckIndexInverse | server/index.js:33-41 | deck positions 0..51 and cards correspond one to one |
| ServerRoom.CreateDeck | server/index.js:33-41 | the loops build 52 cards, suit by suit and rank by rank, each card exactly once |
| ServerRoom.CardsKeyMultiset | server/index.js:144-146 | two card lists get the same key exactly when they hold the same cards, counted with multiplicity |
| ServerRoom.CardsKeyOrderFree | server/index.js:144-146 | reordering the cards never changes the key |
| ServerRoom.NormalizeArrangement | server/index.js:136-142 | a missing arrangement, or a missing lane, becomes an empty lane; a present lane is kept as is |
| ServerRoom.IndexOf | server/index.js:361 | the first player with the id, or none when no player has it |
| ServerRoom.CheckSubmission | server/index.js:365-383 | the three checks run in order (sizes, cards against the hand, lane order) and foul exactly as the submission rule says |
| ServerRoom.SubmissionFouledMeaning | server/index.js:367-383 | a player not already fouled fouls exactly when the sizes are not 3/5/5, the cards are not the dealt hand as a multiset, or the lanes are out of order |
| ServerRoom.CleanSubmission | server/index.js:367-383 | a clean submission is a valid arrangement of exactly the dealt cards |
| ServerRoom.ArrangeBot | server/index.js:126-134 | a computer player takes its level's best arrangement under the as-written objective (arrangeCompetitive for the competitive level, arrangeNormal otherwise), is fouled exactly when that arrangement is invalid, and becomes ready |
| ServerRoom.AutoArrangedFacts | server/index.js:126-134 | a computer dealt 13 different cards lays out exactly those cards in 3/5/5 lanes, and fouls only when no split of its hand is valid |
| ServerRoom.FoulPointsValues | server/index.js:155-170 | under the foul rule only a fouled/clean pair scores, and it moves exactly 6, from the fouled side; two clean or two fouled players score 0 against each other |
| ServerRoom.CleanPointsValues | server/index.js:171-197 | with no foul, a pair is worth +6 or -6 exactly when one side took every lane, and otherwise the lane sum, which is then within -2..2 |
| ServerRoom.PairPointsSwap | server/index.js:155-197 | what one side of a pair wins the other loses |
| ServerRoom.PairPointsSelf | server/index.js:159 | a player scores nothing against itself |
| ServerRoom.RoundZeroSum | server/index.js:148-199 | whatever the ids, fouls and arrangements, the round's deltas add up to zero |
| ServerRoom.RoundDeltaForm | server/index.js:155-199 | with distinct ids, each player's delta is what it gains from every other player, each unordered pair counted once |
| ServerRoom.FoulDeltas | server/index.js:155-170 | when anyone fouled, a fouled player pays 6 to every clean player, and a clean player collects 6 from every fouled one and nothing from the other clean ones |
| ServerRoom.TotalsConserved | server/index.js:201-204 | applying the deltas to the totals never changes the sum of the totals |
| ServerRoom.InitialDeltas | server/index.js:150 | the Map starts with every player at 0 |
| ServerRoom.SettleFoulPair | server/index.js:159-168 | one pass of the foul loop's body updates the Map as the fouled/clean rule says |
| ServerRoom.FoulLoops | server/index.js:157-170 | the nested foul loops leave the Map holding every seat's foul-rule delta |
| ServerRoom.LaneSum | server/index.js:178-184 | the three lane signs of two sized players add up to a sum within -3..3 |
| ServerRoom.SettleCleanPair | server/index.js:186-196 | one pass of the clean loop's body adds the lane sum, and the extra 3 on a sweep, to one side and takes it from the other |
| ServerRoom.CleanRowLoop | server/index.js:175-197 | the inner clean loop settles one player against every later player |
| ServerRoom.CleanLoops | server/index.js:173-198 | the nested clean loops leave the Map holding every seat's lane-by-lane delta |
| ServerRoom.ApplyDeltas | server/index.js:201-204 | every player's total grows by exactly the delta the Map holds for it |
| ServerRoom.CollectResults | server/index.js:206-213 | one result per player, in room order, with its delta read back from the Map and its new total |
| ServerRoom.ReadyScorable | server/index.js:390-392 | once everyone is ready and every ready player has fouled or has sized lanes, the scorer can run |
| ServerRoom.AcceptAt | server/index.js:385-386 | the submitting player's entry gets the checked arrangement and is marked ready; no other entry changes |
| ServerRoom.AcceptKeepsValid | server/index.js:385-386 | accepting a submission keeps the ids distinct and every ready player settled |
| ServerRoom.ResetKeeps | server/index.js:405-411 | a new round keeps every player, in order, with its id, name and total, and nobody is ready |
| ServerRoom.Room.ScoreRound | server/index.js:148-214 | every total moves on by its round delta, and the results list each player's delta and new total; distinct ids and settled ready players stay so |
| ServerRoom.Room.BotAutoArrange | server/index.js:126-134 | only the chosen player changes, into its auto-arranged form; distinct ids and settled ready players stay so |
| ServerRoom.AutoArrangedKeepsValid | server/index.js:126-134 | auto-arranging a player keeps the ids distinct and every ready player either fouled or holding 3/5/5 lanes |
| ServerRoom.Room.SubmitArrangement | server/index.js:355-396 | ignored outside the arranging phase, for an unknown player or for one already ready; otherwise the checked arrangement is stored, and once everyone is ready the room moves to the result phase and the round is scored |
| ServerRoom.Room.Admit | server/index.js:385-395 | stores the checked arrangement and scores the round exactly when everyone is then ready |
| ServerRoom.Room.Store | server/index.js:385-386 | the checked arrangement replaces player i's entry, marked ready |
| ServerRoom.Room.PlayAgain | server/index.js:398-413 | only the host may start over; the room returns to waiting with every hand, arrangement, ready flag and foul cleared and every total kept |
| CardUtils.CreateDeck | client/src/utils/cardUtils.ts:22-38 | the loops build 52 cards, suit by suit over the three-to-two rank order, card k being the deck's k-th (suit, rank) pair |
| CardUtils.CreatePokerDeck | client/src/utils/cardUtils.ts:40-53 | the same loops over the two-to-ace rank order |
| CardUtils.DeckExactlyOnce | client/src/utils/cardUtils.ts:22-53 | each deck holds every (suit, rank) pair exactly once |
| CardUtils.DeckCardsDistinct | client/src/utils/cardUtils.ts:22-53 | different deck positions hold different cards |
| CardUtils.DeckValues | client/src/utils/cardUtils.ts:22-53 | `value` is the rank's index in the deck's own rank order and `suitValue` the suit's index in clubs, diamonds, hearts, spades |
| CardUtils.CompareCards | client/src/utils/cardUtils.ts:85-88 | compareCards is negative exactly when the first card has the lower value, or the same value and the lower suitValue, and 0 only for equal value and suitValue |
| CardUtils.CardOrder | client/src/utils/cardUtils.ts:85-88 | the comparator's "may come first" is a total preorder |
| CardUtils.SortCardsSorted | client/src/utils/cardUtils.ts:78-83 | sortCards returns the same cards, ascending by value, then suitValue |
| CardUtils.GetCardKeyInjective | client/src/utils/cardUtils.ts:90-93 | two cards with the same `${rank}-${suit}` key have the same rank and suit |
| CardUtils.DeckShapedKeys | client/src/utils/cardUtils.ts:85-93 | among cards of one deck, equal keys mean equal cards, and so does comparing equal |
| CardUtils.DealRoundRobin | client/src/utils/cardUtils.ts:64-72 | the dealing loop gives card i to seat i mod n, floor(52/n) cards to each seat |
| CardUtils.DealCards | client/src/utils/cardUtils.ts:64-76 | dealCards returns, for each seat, its round-robin share of the deck, sorted |
| CardUtils.DealStep | client/src/utils/cardUtils.ts:67-71 | dealing card i gives seat i mod n one more card and changes no other seat |
| CardUtils.DealMember | client/src/utils/cardUtils.ts:67-71 | a card held by seat p after the deal comes from a dealt deck position x with x mod n = p |
| CardUtils.DealSeat | client/src/utils/cardUtils.ts:64-76 | every seat gets floor(52/n) cards, sorted, all from the dealt part of the deck |
| CardUtils.DealDisjoint | client/src/utils/cardUtils.ts:64-76 | from a deck without repeats no card reaches two seats |
| CardUtils.DealFits | client/src/utils/cardUtils.ts:66-67 | floor(52/n) · n cards never exceed the 52-card deck |
| CardUtils.CheckStraight | client/src/utils/cardUtils.ts:173-180 | the loop returns true exactly when each value is its predecessor's plus one, with no wrap-around |
| CardUtils.ValueTally | client/src/utils/cardUtils.ts:130-133 | the `rankCounts` record holds each value once with a positive count, and the counts add up to the number of cards |
| CardUtils.ValueTallyKeys | client/src/utils/cardUtils.ts:130-133 | every key of the record is the value of some card |
| CardUtils.FirstKeyWithCount | client/src/utils/cardUtils.ts:148-154 | the key lookup finds a key of the record, and finds none exactly when no key has that count |
| CardUtils.LeadingCountPresent | client/src/utils/cardUtils.ts:134-155 | the largest count belongs to some key, so the four- and three-of-a-kind lookups never come back empty |
| CardUtils.Detect5CardHand | client/src/utils/cardUtils.ts:125-171 | a recognised five-card hand is a straight, flush, full house, four of a kind or straight flush, carrying the sorted cards |
| CardUtils.Detect5Bands | client/src/utils/cardUtils.ts:125-171 | each five-card type's value stays inside its own band: 400s straight, 500s flush, 600s full house, 700s four of a kind, 800s straight flush |
| CardUtils.FiveCardTypesOrdered | client/src/utils/cardUtils.ts:125-171 | a five-card hand of a higher type always has the higher value |
| CardUtils.DetectPair | client/src/utils/cardUtils.ts:104-108 | two cards form a pair exactly when their values agree |
| CardUtils.DetectTriple | client/src/utils/cardUtils.ts:110-115 | three cards form a triple exactly when all three values agree |
| CardUtils.DetectHandType | client/src/utils/cardUtils.ts:95-123 | a detected hand carries the sorted cards, and its type has as many cards as were given |
| CardUtils.DetectSingle | client/src/utils/cardUtils.ts:100-102 | one card is always a single holding that card |
| CardUtils.DetectHandTypeSizes | client/src/utils/cardUtils.ts:95-123 | 0, 4 or more than 5 cards give no hand; one card is always a single; two cards are a hand exactly when they pair, three exactly when they are a triple |
| CardUtils.AllValuePermutation | client/src/utils/cardUtils.ts:98 | whether all cards share a value does not depend on their order |
| CardUtils.CanPlayOn | client/src/utils/cardUtils.ts:182-196 | anything may lead; otherwise a hand beats the last play exactly when it has as many cards, a strictly higher value, and the same type or five cards |
| CardUtils.CanPlayOnStrict | client/src/utils/cardUtils.ts:182-196 | no hand beats itself, and beating is transitive |
| CardUtils.FindPlayerWithCard | client/src/utils/cardUtils.ts:198-203 | the result is the first seat holding the card, or -1 exactly when no seat holds it |
| PairTally.TallyPairs | client/src/components/game/OnlineThirteenSettlement.tsx:40-52 | the nested loops over pairs i < j, seat i gaining the pair's score and seat j losing it, leave exactly the tally |
| PairTally.TallyZeroSum | client/src/components/game/OnlineThirteenSettlement.tsx:40-52 | whatever the pair scores, the tally sums to zero |
| PairTally.TallyAt | client/src/hooks/useThirteenGame.ts:282-290 | with a pair score that negates when the pair is swapped, each seat ends with the sum of its scores against every other seat |
| PairTally.TallyBound | client/src/components/game/OnlineThirteenSettlement.tsx:40-52 | with n seats and pair scores within -b..b, each entry lies within -b(n-1)..b(n-1) |
| PairTally.TallyIdle | client/src/components/game/OnlineThirteenSettlement.tsx:46 | a seat that scores nothing against anyone ends at zero |
| Settlement.GetLaneCards | client/src/components/game/OnlineThirteenSettlement.tsx:20-23 | a missing arrangement has empty lanes; otherwise the named lane |
| Settlement.CompareLane | client/src/components/game/OnlineThirteenSettlement.tsx:25-34 | the result is -1, 0 or 1, and 0 whenever either lane has the wrong size (3 on top, 5 elsewhere) |
| Settlement.CompareLaneSwap | client/src/components/game/OnlineThirteenSettlement.tsx:25-34 | comparing the other way round negates the result |
| Settlement.LaneAgrees | client/src/components/game/OnlineThirteenSettlement.tsx:28-33 | on two sized lanes the client's compareLane is the sign of the server evaluators' comparison of that lane |
| Settlement.ScoreRecord | client/src/components/game/OnlineThirteenSettlement.tsx:37-38 | the record has an entry for every result id, holding that seat's score, and no other entries |
| Settlement.NetLaneScore | client/src/components/game/OnlineThirteenSettlement.tsx:36-55 | the loops leave, for every id, the net over all pairs i < j where neither fouled |
| Settlement.NetLaneZeroSum | client/src/components/game/OnlineThirteenSettlement.tsx:36-55 | on every lane the nets sum to zero over all players |
| Settlement.NetLaneBound | client/src/components/game/OnlineThirteenSettlement.tsx:40-52 | each net is the player's lane comparison summed over every clean opponent, and lies in -(n-1)..n-1 |
| Settlement.NetLaneFouled | client/src/components/game/OnlineThirteenSettlement.tsx:46 | a player who fouled nets zero on every lane, whatever the others did |
| Settlement.Others | client/src/components/game/OnlineThirteenSettlement.tsx:65 | every other player is a room player whose id is not the viewer's |
| Settlement.ToSeatMap | client/src/components/game/OnlineThirteenSettlement.tsx:64-72 | the viewer sits at BOTTOM, then the first up to three others take TOP, LEFT and RIGHT in room order; no position repeats and no other seat is the viewer's |
| ThirteenLocal.Slice | client/src/hooks/useThirteenGame.ts:27-29 | within bounds, a slice is exactly the sub-sequence between its ends |
| ThirteenLocal.KeyIndex | client/src/hooks/useThirteenGame.ts:43-44 | the key search returns -1 exactly when no card carries the key, and otherwise an index whose card carries it |
| ThirteenLocal.SpliceOne | client/src/hooks/useThirteenGame.ts:43-44 | replacing one element at a found index changes that element only |
| ThirteenLocal.KeyIndexFinds | client/src/hooks/useThirteenGame.ts:43-44 | when keys identify the cards, searching a card's key finds that very card |
| ThirteenLocal.SpliceFound | client/src/hooks/useThirteenGame.ts:41-45 | swapping a card that is present for another keeps the lane's size and exchanges exactly one copy of the one for the other |
| ThirteenLocal.NaiveAutoArrange | client/src/hooks/useThirteenGame.ts:25-51 | the result is the sorted 3/5/5 split, or a valid arrangement; the split is kept whenever it is itself valid |
| ThirteenLocal.NaiveAutoArrangeCards | client/src/hooks/useThirteenGame.ts:25-51 | for a 13-card hand the arrangement has lanes of 3, 5 and 5 holding exactly the hand's cards |
| ThirteenLocal.NaiveAutoArrangeChoices | client/src/hooks/useThirteenGame.ts:31-50 | the only alternatives are the sorted split and, when top and middle are non-empty, that split with top's highest and middle's lowest card exchanged |
| ThirteenLocal.ScorePairwise | client/src/hooks/useThirteenGame.ts:53-86 | a pair can be scored exactly when one of the two has fouled or both have full 3/5/5 lanes |
| ThirteenLocal.CleanScoreSwept | client/src/hooks/useThirteenGame.ts:72-85 | the lane sum plus the +3/-3 sweep bonus is the server's swept sign sum for the first player and its negation for the second |
| ThirteenLocal.LaneSignsAgree | client/src/hooks/useThirteenGame.ts:66-70 | the client's per-lane signs equal the server's lane comparison of the same arrangements |
| ThirteenLocal.ScorePairwiseClean | client/src/hooks/useThirteenGame.ts:59-86 | for two clean players with full lanes the score is the swept sign sum of the server's comparison, and its negation |
| ThirteenLocal.ScorePairwiseRange | client/src/hooks/useThirteenGame.ts:53-86 | the two scores negate each other and lie within -6..6; a lone foul costs exactly 6, a double foul scores 0 |
| ThirteenLocal.ScorePairwiseSwap | client/src/hooks/useThirteenGame.ts:53-86 | swapping the two players keeps whether the pair can be scored and negates both scores |
| ThirteenLocal.LaneSignsSwap | client/src/hooks/useThirteenGame.ts:66-70 | comparing the lanes the other way round negates every sign |
| ThirteenLocal.FoulRuleDiffers | client/src/hooks/useThirteenGame.ts:53-86 | for two clean players the local score agrees with the server's scoring when the server ignores fouls, while the server's own foul rule scores such a pair 0 |
| ThirteenLocal.PointsBounded | client/src/hooks/useThirteenGame.ts:53-86 | every pair score, as added to the first player's round score, lies within -6..6 |
| ThirteenLocal.FirstHuman | client/src/hooks/useThirteenGame.ts:147 | the first seat not held by a computer, or none exactly when every seat is a computer |
| ThirteenLocal.StartGameHands | client/src/hooks/useThirteenGame.ts:125-157 | with 2-4 players and a 52-card deck of distinct cards, every seat holds 13 cards and no card is held by two seats |
| ThirteenLocal.StartGameSeats | client/src/hooks/useThirteenGame.ts:125-157 | fewer than two players leave the game alone; otherwise the game enters arranging with no round scores, every seat keeps its identity and total and holds the first 13 of its sorted dealt share; computers are auto-arranged, locked in and judged, humans start unlocked with empty lanes |
| ThirteenLocal.IndexOfId | client/src/hooks/useThirteenGame.ts:165 | the seat search returns -1 exactly when no seat has the id, and otherwise a seat that has it |
| ThirteenLocal.ArrangingSeat | client/src/hooks/useThirteenGame.ts:163-169 | a move acts only on the active seat, and only when it is a human that has not locked in |
| ThirteenLocal.MoveCardToLaneEffect | client/src/hooks/useThirteenGame.ts:161-193 | corrected (see ## Findings): nothing changes unless an unlocked human is active, holds the card, has not placed it and the lane has room; then only that lane of that seat gains exactly that card |
| ThirteenLocal.MoveCardToLaneKeepsPlaced | client/src/hooks/useThirteenGame.ts:172-187 | lanes within capacity, holding only cards of the hand and no key twice, stay so after a move |
| ThirteenLocal.DropKey | client/src/hooks/useThirteenGame.ts:209 | the filter keeps exactly the cards whose key differs, and adds none |
| ThirteenLocal.RemoveCardFromLaneEffect | client/src/hooks/useThirteenGame.ts:195-215 | removal filters the card's key out of one lane of the active unlocked human only, leaves every other lane and seat alone, and keeps lanes placed |
| ThirteenLocal.FirstUnlockedHuman | client/src/hooks/useThirteenGame.ts:265 | the first human that has not locked in, or none exactly when every seat is a computer or locked in |
| ThirteenLocal.LockInEffect | client/src/hooks/useThirteenGame.ts:248-275 | locking in happens exactly when the active unlocked human has placed 13 cards; it judges that seat only, and the game reveals exactly when no unlocked human remains, with no active player, else the next unlocked human becomes active |
| ThirteenLocal.RevealReady | client/src/hooks/useThirteenGame.ts:278-293 | in a consistent game at the reveal every seat has fouled or has full lanes, so every pair can be scored |
| ThirteenLocal.StartGameConsistent | client/src/hooks/useThirteenGame.ts:125-157 | starting a round keeps the game consistent: only the arranging phase has an active player, computers are locked in, locked seats are judged |
| ThirteenLocal.MoveCardToLaneConsistent | client/src/hooks/useThirteenGame.ts:161-193 | moving a card keeps the game consistent |
| ThirteenLocal.RemoveCardFromLaneConsistent | client/src/hooks/useThirteenGame.ts:195-215 | removing a card keeps the game consistent |
| ThirteenLocal.LockInConsistent | client/src/hooks/useThirteenGame.ts:248-275 | locking in keeps the game consistent |
| ThirteenLocal.ScoreReveal | client/src/hooks/useThirteenGame.ts:278-302 | outside the reveal nothing changes; at the reveal the pairwise loop leaves exactly the settled game of the pair tally |
| ThirteenLocal.RevealedTotals | client/src/hooks/useThirteenGame.ts:282-300 | after the reveal the game shows the result, every seat is unchanged but for its total, which grows by its round score, and the round score is its tally entry |
| ThirteenLocal.RevealZeroSum | client/src/hooks/useThirteenGame.ts:282-300 | the round scores are the pair tally, sum to zero, and so leave the sum of the totals unchanged |
| ThirteenLocal.RevealedScore | client/src/hooks/useThirteenGame.ts:285-291 | a seat's round score is the sum of its scores against every other seat, within -6(n-1)..6(n-1) |
| ThirteenLocal.RevealedConsistent | client/src/hooks/useThirteenGame.ts:278-302 | the reveal leaves a consistent game |
| ThirteenLocal.NextRoundKeeps | client/src/hooks/useThirteenGame.ts:304-319 | the next round keeps each seat's identity, name, colour, kind and total, clears hand, lanes, lock and foul, enters setup, and leaves a consistent game |
| AiPlayer.InsertKey | client/src/utils/aiPlayer.ts:50 | adding an integer key keeps the keys ascending and adds exactly that key |
| AiPlayer.ValueKeys | client/src/utils/aiPlayer.ts:54 | the keys of the grouping map are ascending and are exactly the values the hand holds |
| AiPlayer.OfValue | client/src/utils/aiPlayer.ts:49-52 | a value's group holds exactly the cards of that value, and is empty exactly when the hand lacks the value |
| AiPlayer.Groups | client/src/utils/aiPlayer.ts:54 | there is one group per value held |
| AiPlayer.GroupByValue | client/src/utils/aiPlayer.ts:48-52 | the grouping loop leaves a map whose keys are exactly the values held, each mapped to the cards of that value in hand order |
| AiPlayer.Singles | client/src/utils/aiPlayer.ts:41-44 | one candidate per card, each that card alone, in hand order |
| AiPlayer.FindSingles | client/src/utils/aiPlayer.ts:41-44 | the loop leaves exactly the singles |
| AiPlayer.FindPairs | client/src/utils/aiPlayer.ts:46-65 | the grouping and nested loops leave exactly the pairs of every group of two or more, groups ascending by value |
| AiPlayer.FindTriples | client/src/utils/aiPlayer.ts:67-81 | the loops leave exactly the first three cards of every group of three or more |
| AiPlayer.GroupOfValue | client/src/utils/aiPlayer.ts:54 | every value the hand holds has its group among the groups |
| AiPlayer.GroupPositions | client/src/utils/aiPlayer.ts:49-52 | two cards of one value keep their hand order inside the group |
| AiPlayer.PairsOffered | client/src/utils/aiPlayer.ts:54-63 | any two cards of one value are offered as a pair, in hand order |
| AiPlayer.PairsSound | client/src/utils/aiPlayer.ts:54-63 | every pair offered is two cards of the hand of one value |
| AiPlayer.TriplesOnePerValue | client/src/utils/aiPlayer.ts:75-79 | every triple offered is three cards of the hand of one value, and the triples have strictly ascending values, so no value gives two |
| AiPlayer.TriplesOffered | client/src/utils/aiPlayer.ts:75-79 | every value held three times or more offers its first three cards |
| AiPlayer.StraightFrom | client/src/utils/aiPlayer.ts:125-135 | a straight is found from a start exactly when the sorted hand holds the five consecutive values from it |
| AiPlayer.FindStraights | client/src/utils/aiPlayer.ts:112-143 | sorting, grouping and the loop over starts 0..8 leave exactly the straights found from each start in order |
| AiPlayer.LastIsHighest | client/src/utils/aiPlayer.ts:134 | in a sorted hand the last card of a value has the highest suit of that value |
| AiPlayer.StraightsSound | client/src/utils/aiPlayer.ts:112-143 | every straight offered starts at a value 0..8 and is five cards of the hand with consecutive values, each the highest suit of its value |
| AiPlayer.StraightsOffered | client/src/utils/aiPlayer.ts:124-139 | a straight is offered from every start 0..8 whose five values the hand holds |
| AiPlayer.SuitKeys | client/src/utils/aiPlayer.ts:154 | the keys of the suit map are exactly the suits held, none twice |
| AiPlayer.OfSuit | client/src/utils/aiPlayer.ts:149-152 | a suit's group holds exactly the cards of that suit |
| AiPlayer.SuitGroups | client/src/utils/aiPlayer.ts:154 | there is one group per suit held |
| AiPlayer.GroupBySuit | client/src/utils/aiPlayer.ts:148-152 | the grouping loop leaves a map whose keys are exactly the suits held, each mapped to the cards of that suit |
| AiPlayer.TopFive | client/src/utils/aiPlayer.ts:158 | taking the last five of five or more cards gives five cards |
| AiPlayer.FindFlushes | client/src/utils/aiPlayer.ts:145-163 | the loops leave exactly the top five of every suit held five times or more |
| AiPlayer.TopFiveHighest | client/src/utils/aiPlayer.ts:157-158 | the top five of a sorted suit group come from the group, and every other card of the group ranks below each of them |
| AiPlayer.FlushesSound | client/src/utils/aiPlayer.ts:145-163 | every flush offered is five cards of the hand of one suit, and no card of that suit left out ranks above one taken |
| AiPlayer.FlushesOffered | client/src/utils/aiPlayer.ts:154-160 | the top five of every suit held five times or more are offered |
| AiPlayer.Entries | client/src/utils/aiPlayer.ts:174 | the entries pair each held value, ascending, with its group |
| AiPlayer.AtLeast | client/src/utils/aiPlayer.ts:174-175 | the filter keeps exactly the entries whose group has at least the given size |
| AiPlayer.Exactly | client/src/utils/aiPlayer.ts:197 | the filter keeps exactly the entries whose group has the given size |
| AiPlayer.GroupEntries | client/src/utils/aiPlayer.ts:168-174 | the grouping loop followed by the entries listing leaves exactly the entries |
| AiPlayer.PairUp | client/src/utils/aiPlayer.ts:178-182 | the inner loop joins one triple with every pair of another value |
| AiPlayer.FindFullHouses | client/src/utils/aiPlayer.ts:165-186 | the loops leave exactly the full houses of the hand |
| AiPlayer.FullHousesSound | client/src/utils/aiPlayer.ts:165-186 | every full house offered is three cards of one value and two of another, all from the hand |
| AiPlayer.FullHousesOffered | client/src/utils/aiPlayer.ts:174-183 | for every value held three times and every other value held twice, the first three of the one with the first two of the other are offered |
| AiPlayer.FirstOther | client/src/utils/aiPlayer.ts:201 | the kicker search finds the first card of another value, and nothing exactly when every card has the four's value |
| AiPlayer.FindFourOfAKind | client/src/utils/aiPlayer.ts:188-208 | the loops leave exactly the fours, each with its kicker when one exists |
| AiPlayer.FoursSound | client/src/utils/aiPlayer.ts:188-208 | every four of a kind offered is the four cards of one value followed by a card of the hand of another value |
| AiPlayer.FoursKicker | client/src/utils/aiPlayer.ts:199-205 | every value held four times is offered with a kicker whenever the hand holds another value |
| AiPlayer.Find5CardHands | client/src/utils/aiPlayer.ts:90-110 | the five-card candidates are the straights, then the flushes, then the full houses, then the fours |
| AiPlayer.FindAllHands | client/src/utils/aiPlayer.ts:38-88 | the candidates of a size are the singles, pairs, triples or five-card hands, and nothing for any other size |
| AiPlayer.CandidatesFromHand | client/src/utils/aiPlayer.ts:38-88 | every candidate has the requested size and consists of cards of the hand |
| AiPlayer.LegalOnes | client/src/utils/aiPlayer.ts:21-24 | the filter keeps exactly the candidates that are a detected hand able to beat the last play |
| AiPlayer.SortByHead | client/src/utils/aiPlayer.ts:29-35 | a stable sort by value puts first the earliest element of least value |
| AiPlayer.HeadIsLightest | client/src/utils/aiPlayer.ts:26-35 | the head of the valid plays sorted by value is a legal candidate of least value, the earliest such |
| AiPlayer.LowestFirst | client/src/utils/aiPlayer.ts:7-12 | the first card of the sorted hand ranks at or below every card of the hand |
| AiPlayer.FindBestPlay | client/src/utils/aiPlayer.ts:4-36 | nothing for an empty hand; the lowest card when leading; otherwise nothing exactly when no candidate of the last play's size is legal, else the earliest legal candidate of least value, of that size and from the hand |
| SheddingGame.ColorsOf | client/src/hooks/useGame.ts:50 | the colours in use, seat by seat |
| SheddingGame.FreeColor | client/src/hooks/useGame.ts:51 | the colour picked is not in use, unless every colour is |
| SheddingGame.ComputerCount | client/src/hooks/useGame.ts:52 | the number of computers never exceeds the number of seats |
| SheddingGame.FreeColorFresh | client/src/hooks/useGame.ts:50-51 | with fewer than four seats the colour picked is one no seat uses, so the fallback colour is never reached |
| SheddingGame.AddPlayerEffect | client/src/hooks/useGame.ts:46-67 | at four seats nothing changes; otherwise exactly one seat is appended, with the given id and kind, no cards, no pass, no score, the given name for a human, and a colour no other seat has, and nothing else changes |
| SheddingGame.AddPlayerKeepsColors | client/src/hooks/useGame.ts:46-67 | seats never share a colour and never number more than four |
| SheddingGame.StarterSeat | client/src/hooks/useGame.ts:89-95 | the opening seat is a seat, and it holds the three of clubs, or is seat 0 when nobody holds it |
| SheddingGame.StartGameDeals | client/src/hooks/useGame.ts:76-103 | with fewer than two seats nothing changes; otherwise every seat keeps its identity, holds its share of the deal, floor(52/n) cards in ascending order, and has not passed |
| SheddingGame.StartGameOpens | client/src/hooks/useGame.ts:89-101 | a started game is playing with an empty board and no passes, and the seat holding the three of clubs opens, seat 0 when nobody holds it |
| SheddingGame.WithoutKey | client/src/hooks/useGame.ts:111 | the filter keeps exactly the selected cards whose key differs |
| SheddingGame.ToggleFlips | client/src/hooks/useGame.ts:105-117 | toggling flips whether the card's key is selected, except that a sixth card is refused; every other card stays as it was, and at most five are ever selected |
| SheddingGame.ToggleTwice | client/src/hooks/useGame.ts:105-117 | selecting a card that was not selected and toggling it again restores the selection |
| SheddingGame.RemainingMeaning | client/src/hooks/useGame.ts:131-133 | the hand keeps exactly the cards whose key was not played, and gains none |
| SheddingGame.PlayCardsRejects | client/src/hooks/useGame.ts:123-128 | a play that is not a hand, or does not beat the board, leaves the game unchanged; the selection survives only a play that is not a hand |
| SheddingGame.PlayCardsEffect | client/src/hooks/useGame.ts:127-166 | an accepted play takes exactly the played cards from the current seat and from nobody else, clears its pass flag and puts the hand on the board under its id; an emptied hand ends the round with that seat as winner and the turn where it was, otherwise the turn moves to the next seat and the passes reset |
| SheddingGame.PlayCardsTurn | client/src/hooks/useGame.ts:123-166 | a play keeps the current index on a seat |
| SheddingGame.Seek | client/src/hooks/useGame.ts:189-193 | the skip loop always ends on a seat |
| SheddingGame.SeekLands | client/src/hooks/useGame.ts:189-193 | the skip loop ends on a seat that has not passed, or back on the current seat, and every seat it stepped over has passed |
| SheddingGame.IndexOfId | client/src/hooks/useGame.ts:178 | the search returns the first seat with the id, and -1 exactly when no seat has it, always so when there is no id |
| SheddingGame.Unpassed | client/src/hooks/useGame.ts:174 | every seat is kept but its pass flag is cleared |
| SheddingGame.ClearBoardAsWrittenLosesTurn | client/src/hooks/useGame.ts:170-183 | as written, with two seats and an empty board, a single pass clears the board and sets the current index to -1, which names no seat |
| SheddingGame.ClearBoardTurn | client/src/hooks/useGame.ts:172-183 | the corrected clearing keeps the turn on a seat, the one that played last when it is still seated, empties the board, resets the passes and clears every pass flag |
| SheddingGame.Pass | client/src/hooks/useGame.ts:168-202 | corrected (see ## Findings): when the passes reach n-1 the board is cleared; otherwise only the current seat is marked passed, the passes grow by one, and the loop hands the turn to a seat that has not passed, or back to the current one; the turn always stays on a seat |
| SheddingGame.NextRoundEffect | client/src/hooks/useGame.ts:224-253 | every seat is dealt its share and unpassed, the winner gains every card left on the table and every other seat loses its own count, and the next round opens playing with an empty board and no winner |
| SheddingGame.NextRoundZeroSum | client/src/hooks/useGame.ts:229-237 | with one winning seat the sum of the totals grows by exactly the winner's own leftover cards, so scoring is zero-sum exactly when the winner emptied the hand |

## Left out

- Network I/O is left out: socket events, broadcasts, the health route, the server
  listener, the online-client hook, the socket module and localStorage. The room
  lifecycle (create, join, leave, host migration, adding and removing bots) is left out
  too; a room is modelled only as the owner of its players.
- Shuffling is left out (`shuffle` in server/index.js:43-50, `shuffleDeck` in
  client/src/utils/cardUtils.ts:55-62). Every operation that deals takes the deck as a
  parameter; where a proof needs it, the deck is required to hold distinct cards.
- Generated ids (room, bot and player ids) are parameters, and ids are assumed distinct
  where scores are keyed by id: `ServerRoom.DistinctIds`, `ThirteenLocal.DistinctLocalIds`
  and `Settlement.DistinctResultIds`. The source relies on socket ids and random ids for this.
- BotArrange.ArrangeNormal: the objective `botS * 1e-6 + midS * 1e-12 + topS * 1e-18` is
  modelled by its real-number value times 10^18, an exact integer. JavaScript computes it in
  doubles, and the as-written strengths reach about 10^16, above 2^53, so the program's
  values are rounded and near-ties among candidates may be broken differently.
- BotArrange.ArrangeCompetitive: the weights 0.92, 0.75 and 0.00001 are applied to the real
  values, scaled by 10^5 to an integer. Double rounding is not modelled, as for ArrangeNormal.
- BotArrange.ArrangeNormalCorrected and BotArrange.ArrangeCompetitiveCorrected: the bot
  players of the room (`ServerRoom.ArrangeBot`) use the as-written arrangers, as the program
  does; the corrected arrangers are stated beside them.
- BotArrange.EvalToScore: scores above 2^53 would be rounded by JavaScript numbers; the
  model uses exact integers.
- Timers and React effects are left out: the computer player's `setTimeout` in
  client/src/hooks/useGame.ts:205-222 and the settlement autoplay timer. The reveal effect
  of the local game is modelled as the step `ThirteenLocal.ScoreReveal`.
- All React rendering and the type-only modules are left out.
- Out-of-core updaters are not modelled: `removePlayer`, `clearSelection`, `endGame` and
  `resetGame` of the shedding game, and `addPlayer`, `removePlayer`, `clearArrangement`,
  `autoArrangeActive` and `resetGame` of the local thirteen-lanes game.
- SheddingGame.AddPlayer: the computer-name fallback `電腦${n}` is never reached, since at
  most three computers are seated before a fourth seat is added, so the name is always
  taken from the list. Generated ids are a parameter.
- SheddingGame.PlayCards: requires the current index to name a seat. The source would read
  an undefined player otherwise; that state is reachable only through the pass defect
  listed under Findings, which the corrected model rules out.
- SheddingGame.Pass: requires the current index to name a seat, for the same reason.
- SheddingGame.Pass: models the corrected board clearing. As written the branch sets the
  current index to `findIndex(lastPlayerId)` (client/src/hooks/useGame.ts:178), which is -1
  when the board is empty; that version is `SheddingGame.ClearBoardAsWrittenLosesTurn`.
- ThirteenLocal.MoveCardToLane: models the corrected move, which also requires the card to be
  in the active player's hand. As written only the lanes are checked
  (client/src/hooks/useThirteenGame.ts:172-176); that version is
  `ThirteenLocal.MoveCardToLaneAsWrittenForeignCard`.
- AiPlayer.FindAllHands: the unused `type` parameter of `findAllHands` is dropped.
- CardUtils.SortCards and the in-place sorts of the client (`sortCards`, `validPlays.sort`,
  `suitCards.sort`) are modelled as functions returning the sorted sequence. Aliasing of the
  sorted array is not modelled.
- Cards arriving over the wire as arbitrary strings are not modelled: ranks and suits are
  enumerations. JavaScript key order for non-integer keys is modelled as insertion order
  and integer keys as ascending, as the finders use them.
- ThirteenEval.StraightHigh: requires a non-empty rank list; the source reads the last unique
  rank, and it is only called with five cards.
- ThirteenLocal.ScoreReveal: requires every seat to have fouled or to hold full 3/5/5 lanes
  when the phase is the reveal. `ThirteenLocal.RevealReady` proves that every consistent game
  at the reveal satisfies this.

## Findings

| source | as written | input that shows it | evidently intended | confidence | as-written member | corrected member |
|---|---|---|---|---|---|---|
| server/utils/botArrange.js:14-25 | the category is weighted by 10^9 but the first tiebreak slot by 1000^5 = 10^15, so the tiebreak outweighs the category | a pair of twos against an ace-high hand: compareEval ranks the pair higher, but the pair gets the lower score | a score that is larger exactly when compareEval says stronger | high, not executed | BotArrange.EvalToScoreMisorders | BotArrange.ScoreOrder |
| server/utils/botArrange.js:27-33 | strengthFive and strengthTop3 are evalToScore, so both arrangers rank lanes by the misordered score | 2 2 3 4 6 at the bottom, A K Q J 9 in the middle, 5 7 8 on top: a valid arrangement whose middle strength exceeds its bottom strength, so arrangeCompetitive's balance penalty is not charged | lane strengths that never increase from bottom to top on a valid arrangement, with the penalty charging the bottom's lead | high, not executed | BotArrange.LaneStrengthsAsWrittenInverted | BotArrange.CorrectedLaneStrengths |
| client/src/hooks/useThirteenGame.ts:161-193 | the comment at line 172 says the card must be in hand, but only the lanes are checked | an active unlocked human moves a card that is not in the hand into a lane with room: the card is placed | a card can be placed only when the active player holds it | high, not executed | ThirteenLocal.MoveCardToLaneAsWrittenForeignCard | ThirteenLocal.MoveCardToLaneKeepsPlaced |
| client/src/hooks/useGame.ts:170-183 | the board-clearing branch sets the current index to `findIndex(lastPlayerId)`, which is -1 when nobody is on the board | two players, an empty board and no passes: one pass clears the board and the current index becomes -1 | the turn goes to the seat that played last, or moves on when there is none | high, not executed | SheddingGame.ClearBoardAsWrittenLosesTurn | SheddingGame.ClearBoardTurn |
