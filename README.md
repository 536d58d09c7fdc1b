# Blackjack strategy simulator

A model of three versions of a blackjack simulator. Each version scores hands and
decides between hit and stand with a threshold strategy. It then plays many hands and
reports what happened.

- **Week 3** (`module Blackjack`). One strategy is given as a stand-on value and the
  word `soft` or `hard`. The simulator plays a number of hands and counts the busts.
- **Week 4** (`module Blackjack2`). Every strategy H13, S13, ..., H21, S21 plays a
  number of hands. Each hand is reported as its final total, with every bust reported
  as 22. The program keeps a histogram of these results and writes a table. Each row
  is the histogram's values in key order, padded on the left to ten cells.
- **Week 5** (`module Blackjack3`). Hands and strategies are objects: `Hand` and
  `Strategy`. For every player strategy and every dealer strategy, with stand-on
  values 13..20 and hit or stand on soft, the program plays a number of rounds. It
  then writes a table of how many rounds the player was credited with.

`module Rules` holds what the versions share:
- the card values (jack, queen and king count 10; an ace counts 1, or 11 when soft);
- the score, in which at most one ace is soft;
- the threshold rule (`StandsOn`);
- the hand-playing loop (`Finish`, `PlayHand`);
- the strategy labels.

Randomness is a parameter. A `Deck` is a stream of ranks in 1..13, read by position.
Each operation that draws cards takes the position of the next card and returns the
position after the last card it drew. Each loop that plays hands or counts their results
is proved equal to a recursive function over the stream. The table-building loops are
proved to place, row by row, the rows those functions define.

Behaviour of the code as written, stated by the model:
- **Week 4 padding.** Row cells align with the header columns when the totals that
  occurred run without a gap from the lowest of them up to 22: the left padding then
  stands for the totals below that, none of which occurred (`RowAlignedWithoutGaps`).
  A missing total between the lowest and 22 shifts the counts below it to the right. For example, a single hand lands in the BUST column whatever its total
  (`SingleHandLandsInBustColumn`).
- **Week 5 player bust.** The player-bust branch runs the bare statement `next`, which
  does nothing. The tally chain therefore goes on to the dealer's hand.
- **Week 5 credit chain.** A busted player is credited unless the dealer has a
  blackjack. Two blackjacks also credit the player. `CreditedVersusSettled` compares
  this chain with the settlement its comments describe (`Settle`).

## Model

| member | source | states |
|---|---|---|
| Rules.Score | week_4/blackjack2.py:15-42 | at most one ace is soft; a soft hand holds an ace and totals at most 21 |
| Rules.HardSumAppend | week_4/blackjack2.py:30-35 | one more card adds its value (face cards 10, ace 1) to the hard sum, and one to the ace count when it is an ace |
| Rules.HardSumBounds | week_4/blackjack2.py:30-35 | for ranks 1..13: aces ≤ cards ≤ hard sum ≤ 10 × cards |
| Rules.AcePresent | week_4/blackjack2.py:25-28 | the ace flag is set exactly when the hand holds at least one ace |
| Rules.ScoreIsBestTotal | week_4/blackjack2.py:37-40 | the total is the hard sum plus 10 for at most one ace, and it is the best count of aces as 11 that stays at most 21 |
| Rules.BustIsHard | week_4/blackjack2.py:37-40 | a hand is over 21 exactly when its hard sum is, and a bust hand has no soft ace |
| Rules.ScoreFaceCardVectors | week_4/test_blackjack2.py:8-37 | the expected scores of the tests without aces, with 11, 12 and 13 counted as 10 |
| Rules.ScoreAceVectors | week_4/test_blackjack2.py:30-44 | [1] scores (11,1), [1,5] (16,1), [1,10] (21,1) and [11,10,1] (21,0) |
| Rules.ScoreManyAceVectors | week_4/test_blackjack2.py:34-36 | with several aces only one is soft: [1,1,5] scores (17,1) and [1,1,1,7] (20,1); [1,3,7] scores (21,1), as the week-5 test of `Hand([1,3,7])` expects (week_5/test_blackjack3.py, lines 106-110) |
| Rules.ScoreDemotedAceVectors | week_4/test_blackjack2.py:46-56 | the ace stays soft in [1,2,3] and [1,2,3,1] and becomes hard once a 10 is added |
| Rules.StandsOnThreshold | week_4/blackjack2.py:53-64 | a hand stands only at or above the stand-on value, and a hard hand stands exactly when it reaches it |
| Rules.PlayHand | week_4/blackjack2.py:72-78 | a played hand has at least two cards and the threshold rule stands on it |
| Rules.FinishHits | week_4/blackjack2.py:75-78 | a hand the rule hits on takes the next card of the stream, which raises its hard sum (so the loop ends) |
| Rules.FinishDraws | week_4/blackjack2.py:75-78 | drawing to a stand only appends cards, read in order from the stream |
| Rules.FinishStops | week_4/blackjack2.py:75-78 | the finished hand is the first hand on the way that the rule stands on |
| Rules.PlayHandDraws | week_4/blackjack2.py:72-78 | a played hand is the run of at least two stream cards from its start, and the next position follows it |
| Rules.PlayHandStops | week_4/blackjack2.py:72-78 | a played hand stands, reaches the stand-on value, and no shorter hand of two or more cards on the way stood |
| Rules.PlayHandLength | week_4/blackjack2.py:72-78 | a played hand has at most max(2, stand-on value + 1) cards |
| Rules.NameListed | week_4/blackjack2.py:129-135 | the label S or H plus the value is the label listed at that strategy's place in play order |
| Blackjack.Score | week_3/blackjack.py:10-38 | the card-by-card loop returns the rules' score |
| Blackjack.Stand | week_3/blackjack.py:40-66 | the nested soft/hard decision stands exactly when the threshold rule does (every path returns) |
| Blackjack.StandTable | week_3/blackjack.py:40-66 | below the value: hit; above it: stand; at it: stand unless the hand is soft and the strategy hits on soft |
| Blackjack.StandOnSoft | week_3/blackjack.py:84-95 | `soft` and `hard` are accepted, and only `soft` stands on soft; any other word is an error |
| Blackjack.Busts | week_3/blackjack.py:97-116 | the number of busts among the trials is at most the number of trials |
| Blackjack.PlayTrial | week_3/blackjack.py:101-110 | one trial's total is the score of the hand the rule plays from the stream, and it reaches the stand-on value |
| Blackjack.CountBusts | week_3/blackjack.py:97-116 | the trial loop counts exactly the busted hands among the trials played in turn, at most one per trial |
| Blackjack2.Score | week_4/blackjack2.py:15-42 | the card-by-card loop returns the rules' score as the `Score` record |
| Blackjack2.Stand | week_4/blackjack2.py:47-66 | the `Stand` record holds the hand's total and a decision to stand exactly when the threshold rule stands |
| Blackjack2.StandHitVectors | week_4/test_blackjack2.py:58-72 | below the value both strategies hit: [5,8] gives (False,13) and [5,7,3] (False,15), for standing and for hitting on soft |
| Blackjack2.StandHardVectors | week_4/test_blackjack2.py:74-104 | hard totals at or above the value stand under both strategies: [5,7,2,2] gives (True,16) and [5,5,3,4] (True,17) |
| Blackjack2.StandSoftVectors | week_4/test_blackjack2.py:80-98 | a soft 16 ([5,1]) stands only when standing on soft; a hard 16 with an ace ([5,5,5,1]) and a soft 17 ([3,3,1]) stand under both strategies |
| Blackjack2.Reported | week_4/blackjack2.py:80-86 | a reported result is at most 22; it is 22 exactly for totals of 22 or more, and the total itself below 22 |
| Blackjack2.HandResult | week_4/blackjack2.py:68-86 | the reported result lies between the stand-on value and 22, and at least two cards are drawn |
| Blackjack2.PlayHand | week_4/blackjack2.py:68-86 | the draw loop plays the rules' hand and reports its total when under 22, else 22 |
| Blackjack2.Results | week_4/blackjack2.py:139-142 | one reported result per simulated hand |
| Blackjack2.ResultsRange | week_4/blackjack2.py:139-142 | every reported result of a strategy lies between its stand-on value and 22 |
| Blackjack2.SumCountsEmpty | week_4/blackjack2.py:137 | the empty `defaultdict` counts nothing in any range |
| Blackjack2.SumCountsIncrement | week_4/blackjack2.py:142 | `results[total] += 1` adds one to the counts of every range holding `total` |
| Blackjack2.SumCountsUnchanged | week_4/blackjack2.py:142 | an increment outside a range leaves its counts unchanged |
| Blackjack2.TallyCountsEveryResult | week_4/blackjack2.py:137-142 | tallying results that lie in a range raises its counts by the number of results |
| Blackjack2.TallyKeys | week_4/blackjack2.py:137-142 | a key is in the histogram exactly when it was a starting key or a result that occurred |
| Blackjack2.Histogram | week_4/blackjack2.py:137-142 | the trial loop builds the tally of the strategy's results; its keys lie between the stand-on value and 22 and its counts add up to the number of hands |
| Blackjack2.HistogramBounds | week_4/blackjack2.py:137-142 | the histogram's keys lie between the stand-on value and 22 and its counts add up to the number of hands |
| Blackjack2.SortedCells | week_4/blackjack2.py:149 | the items in key order are at most one cell per key in the range, each a count |
| Blackjack2.RowSumAppend | week_4/blackjack2.py:149 | the counts of two joined rows add up |
| Blackjack2.SortedCellsSum | week_4/blackjack2.py:144-149 | the sorted cells hold the histogram's counts over the range |
| Blackjack2.LeftPadded | week_4/blackjack2.py:151-153 | a padded row has ten cells (or more if it was longer), ends with the original row, and every added cell is zero |
| Blackjack2.ZerosAddNothing | week_4/blackjack2.py:151-153 | the zero padding adds nothing to a row's counts |
| Blackjack2.PadLeft | week_4/blackjack2.py:151-153 | the `appendleft('0.0')` loop yields the left-padded row |
| Blackjack2.LeftPaddedAt | week_4/blackjack2.py:151-153 | cell i of a padded row is zero before the original cells and the original cell after |
| Blackjack2.StrategyRow | week_4/blackjack2.py:129-159 | a row is its strategy's name and its padded sorted histogram: eleven cells, ten counts adding up to the number of hands |
| Blackjack2.PaddedRowShaped | week_4/blackjack2.py:151-159 | a name plus a padded row of at most ten counts is an eleven-cell row with the same total |
| Blackjack2.Header | week_4/blackjack2.py:117-121 | the header has eleven cells, STRATEGY first and BUST last |
| Blackjack2.HeaderListed | week_4/blackjack2.py:117-121 | the header is STRATEGY, 13, ..., 21, BUST |
| Blackjack2.StrategyRowOf | week_4/blackjack2.py:129-159 | a strategy's row starts with its own label, H<value> for hitting on soft and S<value> for standing on soft |
| Blackjack2.StrategyRowShaped | week_4/blackjack2.py:144-159 | for a stand-on value in 13..22 a strategy's row has eleven cells, ten counts adding up to the number of hands |
| Blackjack2.ValueRows | week_4/blackjack2.py:127-159 | for one stand-on value, the first row is the row of the strategy that hits on soft (`hard`), the second the row of the one that stands on soft (`soft`), played on from where the first stopped |
| Blackjack2.AppendValueRows | week_4/blackjack2.py:124-159 | the two rows of the next stand-on value keep the table's rows shaped and named in play order |
| Blackjack2.BuildTable | week_4/blackjack2.py:112-159 | the table is the header and eighteen rows H13..S21 in order, each with ten counts adding up to the number of hands; rows 1 + 2v and 2 + 2v are the rows of the two strategies of value 13 + v, and each value's hands follow the previous value's in the stream |
| Blackjack2.NoGapsListsEveryCount | week_4/blackjack2.py:144-149 | when every key of a range is present, the sorted cells are exactly its counts, one per key |
| Blackjack2.RowAlignedWithoutGaps | week_4/blackjack2.py:144-156 | when the totals that occurred are every total from the lowest of them to 22, cell i holds the count of total 13 + i |
| Blackjack2.SingleHandLandsInBustColumn | week_4/blackjack2.py:144-156 | a histogram of one hand puts its count in the BUST column whatever its total |
| Blackjack2.OnlyKeyListed | week_4/blackjack2.py:149 | a one-key histogram lists exactly that count in any range that holds the key |
| Blackjack2.AbsentKeysNotListed | week_4/blackjack2.py:149 | a range above the only key lists nothing |
| Blackjack3.Hand.Valid | week_5/blackjack3.py:56-81 | a scored hand has at most one soft ace, and a soft hand holds an ace and totals at most 21 |
| Blackjack3.Hand.constructor | week_5/blackjack3.py:9-20 | `Hand()` has no cards, total 0 and no soft ace |
| Blackjack3.Hand.FromCards | week_5/blackjack3.py:9-15 | `Hand(cards)` keeps the cards and scores them |
| Blackjack3.Hand.AddCard | week_5/blackjack3.py:29-33 | the card is appended and the hand is rescored |
| Blackjack3.Hand.IsBlackjack | week_5/blackjack3.py:35-46 | on a scored hand: a ten-valued card, a soft ace and 21; on ranks, exactly an ace and a ten-valued card alone |
| Blackjack3.Hand.IsBust | week_5/blackjack3.py:48-54 | on a scored hand: the total is over 21, exactly when the hard sum is |
| Blackjack3.Hand.Score | week_5/blackjack3.py:56-81 | the cards are unchanged and the total and soft ace count become the rules' score |
| Blackjack3.HardSumCoversOne | week_5/blackjack3.py:71-76 | the hard sum is at least one card's value plus one per other card |
| Blackjack3.HardSumCoversTwo | week_5/blackjack3.py:71-76 | the hard sum is at least two cards' values plus one per other card |
| Blackjack3.BlackjackIsNatural | week_5/blackjack3.py:35-46 | the `is_blackjack` test holds exactly for two-card hands of an ace and a ten-valued card |
| Blackjack3.BlackjackVectors | week_5/test_blackjack3.py:50-110 | [1,10] is a blackjack; [1,3,7], [1,2,3] and [11,10,1] are not |
| Blackjack3.Strategy.constructor | week_5/blackjack3.py:86-90 | the strategy keeps its stand-on value and soft flag |
| Blackjack3.Strategy.Stand | week_5/blackjack3.py:107-123 | on a scored hand, stand exactly when the threshold rule does |
| Blackjack3.Strategy.Play | week_5/blackjack3.py:125-139 | a new scored hand that is the rules' hand played from the stream; the last decision is to stand |
| Blackjack3.PlayerCredited | week_5/blackjack3.py:206-237 | the chain as written credits the player whenever the dealer busts, never when only the dealer has blackjack, and otherwise only with a total at least the dealer's |
| Blackjack3.Settle | week_5/blackjack3.py:208-237 | the settlement the comments describe: a busted player loses, then a busted dealer loses, and two blackjacks tie |
| Blackjack3.CreditedVersusSettled | week_5/blackjack3.py:206-237 | the chain credits the player exactly when the player wins, or busts against a dealer without blackjack, or both have blackjack |
| Blackjack3.BustedPlayerCredited | week_5/blackjack3.py:208-210 | a busted 25 against a dealer's 17 is credited to the player, though it is a dealer win |
| Blackjack3.TwoBlackjacksCredited | week_5/blackjack3.py:218-226 | two blackjacks credit the player, though the round is a tie |
| Blackjack3.CellWins | week_5/blackjack3.py:203-237 | a count of credited rounds is at most the number of rounds |
| Blackjack3.PlayRound | week_5/blackjack3.py:207-237 | one round plays the player's hand, then the dealer's from the next card, and applies the chain |
| Blackjack3.CountWins | week_5/blackjack3.py:203-238 | the trial loop counts exactly the credited rounds, at most one per round |
| Blackjack3.Header | week_5/blackjack3.py:162-172 | the header has seventeen cells, P-Strategy first |
| Blackjack3.ColumnNames | week_5/blackjack3.py:162-172 | the header is P-Strategy, then D-H13, D-S13, ..., D-H20, D-S20 |
| Blackjack3.HeaderNext | week_5/blackjack3.py:169-171 | the next dealer label continues the header in play order |
| Blackjack3.DealerCells | week_5/blackjack3.py:192-238 | a row holds one count per remaining dealer strategy up to S20 |
| Blackjack3.DealerCellsBounded | week_5/blackjack3.py:203-238 | every cell is a count of at most the number of rounds |
| Blackjack3.PlayerRowOf | week_5/blackjack3.py:175-238 | a player's row has seventeen cells and starts with P-H<value> or P-S<value> |
| Blackjack3.PlayerRowShaped | week_5/blackjack3.py:188-238 | a player's row is its label and sixteen counts of at most the number of rounds |
| Blackjack3.PlayerRow | week_5/blackjack3.py:188-238 | the dealer loops build the label followed by the player's count against each dealer strategy, in play order |
| Blackjack3.DealerValueCells | week_5/blackjack3.py:192-238 | at one dealer value, the two counts (hit on soft, then stand on soft) continue the row |
| Blackjack3.PlayerRows | week_5/blackjack3.py:175-240 | for one player value, the H row comes first and the S row follows from where it stopped |
| Blackjack3.AppendPlayerRows | week_5/blackjack3.py:175-240 | the next value's two rows keep the table shaped and labelled in play order |
| Blackjack3.Simulate | week_5/blackjack3.py:162-240 | the table is the header and sixteen rows P-H13..P-S20 in order, each with sixteen counts of at most the number of rounds; rows 1+2v and 2+2v are `PlayerRowOf` of stand-on value 13+v hitting, then standing, on soft, over n rounds, and each value's rounds continue the stream where the previous value's stopped |

## Left out

- Random draws (`get_card`, `random.randint(1, 13)`) are replaced by a deck stream. The model says nothing about the distribution of cards or of the results.
- A trial count of zero: week 3 divides by `num_simulations` after its loop (week_3/blackjack.py:118) and week 5 by `n` after the first cell (week_5/blackjack3.py:238), so both stop with a ZeroDivisionError and produce no result. `Blackjack.CountBusts` and `Blackjack3.Simulate` accept zero and return zero counts, since the model stops at the counts before any percentage. Week 4 divides nothing when no hand is played.
- Percentages and their rounding (`round(..., 1)` in week 4, `round(..., 2)` in week 5, the bust percentage of week 3) are floating point. The model keeps the integer counts they are computed from.
- Command-line parsing is left out: reading `sys.argv` and the `try` blocks around it. The trial count is taken as a natural number. A non-numeric argument makes `int(...)` raise a ValueError that is caught and printed, after which the program fails on the unassigned name. The blocks around the bare expressions `len(sys.argv) == 2` and `num_sims > 0` / `n > 0` (week_4/blackjack2.py:95-98 and 107-110, week_5/blackjack3.py:146-149 and 157-160) can raise nothing they catch, so they check nothing. Week 3's `soft`/`hard` check is modelled (`Blackjack.StandOnSoft`).
- Output is left out: writing `output.csv`, the bust-percentage `print`, and the printing methods `__str__` and `__repr__` of `Hand` and `Strategy`.
- `Strategy.decision` exists only after `play` in the source. In the model it is a field that the constructor leaves unspecified.
- The statistics, dataset and plotting programs of the other weeks are not part of this model.
- Blackjack.Busts: states only that the busts are at most the trials. What it counts is stated through `Blackjack.BustsStep` and `Blackjack.CountBusts`.
- Blackjack3.CellWins: its own contract bounds the count. What it counts is stated by `Blackjack3.CellWinsStep` and `Blackjack3.CountWins`.
