# trumpsbrackets in Dafny

A model of the simulation engine of `trumpsbrackets.py`. The program plays randomised single-elimination
brackets between cards. Each card has a name and a vector of numeric attributes. In a match each
attribute scores +1, 0 or -1 for the first card. An attribute whose ordering entry is not `"+"` counts lower
values as better. The card with a positive total wins, and an exact tie is settled by a coin.

A round (`fight_roster`) shuffles the field. An odd card out advances on a bye, and the rest are popped
off in pairs. The bracket (`one_round`) repeats rounds on the winners until one card is left, and
returns the cards in the order they were knocked out, with the champion last. `evaluate_result` turns
that order into ranks. `n_rounds` counts each name's ranks over many brackets. The end of `main`
then sums each card's counts into one bucket per round ("lost in round k") plus "won".

Modules, one file each:

- `cards.dfy` (`Cards`): the card record, the constructor's length check as a `Result`, and names.
- `randomness.dfy` (`Randomness`): the random source as a class. Draw number `i` is answered by
  `draws(i)`, for an arbitrary function `draws`, and a counter `used` records how many draws were made.
  Everything proved holds for every possible stream of answers.
- `matches.dfy` (`Matches`): `sign`, the attribute score, and `compare`. `Compare` is an imperative
  method with its loop, specified by the function `Play`.
- `schedule.dfy` (`Schedule`): `rounds_needed` and the field-size arithmetic of halving with rounding up.
- `bracket.dfy` (`Bracket`): the caller's list as a class `Roster` that `fight_roster` shuffles and
  empties in place. `FightRoster` is the imperative round, specified by the function `Round`.
- `knockout.dfy` (`Knockout`): `one_round` as an imperative loop, specified by the function `Knock`.
  `Knock` is defined for any round rule that halves the field and keeps its cards, and
  `fight_roster`'s round is proved to be such a rule.
- `tally.dfy` (`Tally`): `evaluate_result`, `n_rounds` with its inner counting loop, and the round
  buckets of `main`.

## Model

| member | source | states |
|---|---|---|
| `Cards.NewCard` | trumpsbrackets.py:25-33 | a card is built exactly when `values` and `skills` have the same length, and then keeps name, skills and values; otherwise the error reports the name, the number of values and the number of attribute names |
| `Matches.SignMeaning` | trumpsbrackets.py:11-16 | `sign` is -1, 0 or 1, positive exactly for positive numbers, negative exactly for negative ones, and odd |
| `Matches.PointMeaning` | trumpsbrackets.py:53-55 | an attribute scores for the first card exactly when its value is better in the attribute's direction (higher for `"+"`, lower otherwise), and swapping the cards negates the point |
| `Matches.ZipLen` | trumpsbrackets.py:53 | the number of compared attributes is the length of the shortest of the two value lists and the ordering: no more than any of them, and equal to one of them |
| `Matches.ScoreIsNetWins` | trumpsbrackets.py:52-55 | the summed score is the number of attributes won minus the number lost, and swapping the cards negates it |
| `Matches.Outcome` | trumpsbrackets.py:56-60 | the result is (a, b) or (b, a); a positive score makes `a` the winner, a negative one `b`, and on a tie `a` wins exactly when the coin is 1 |
| `Matches.ResolvesByCoin` | trumpsbrackets.py:56-60 | the possible results of a match (both cards used, winner not behind on score) are exactly the results of `compare` under one of the two coins |
| `Matches.CompareAntisymmetric` | trumpsbrackets.py:53-59 | without a tie, `compare(a, b)` and `compare(b, a)` name the same winner and the same loser, whatever the coins |
| `Matches.TieFollowsCoin` | trumpsbrackets.py:56-59 | on a tie, coin 1 makes the first card win and coin 0 the second |
| `Matches.WinnerWinsMoreAttributes` | trumpsbrackets.py:51-60 | the winner wins at least as many attributes as it loses against the loser, and strictly more unless the scores tie |
| `Matches.PlayResolves` | trumpsbrackets.py:56-57 | a match played from any random stream obeys the match rule and takes one draw exactly when the scores tie |
| `Matches.Compare` | trumpsbrackets.py:51-60 | the loop's score is the attribute score, a coin is drawn only on a tie, and the winner and loser are those of `Play`, which obey the match rule |
| `Randomness.Source.Below` | trumpsbrackets.py:68 | a draw below `k` is the stream's next answer reduced below `k`, and it uses up one draw |
| `Randomness.Source.Choice` | trumpsbrackets.py:57 | `random.choice` returns one of the options, the one at the drawn index, and it uses up one draw |
| `Schedule.Half` | trumpsbrackets.py:113 | `cards // 2 + cards % 2` is half of the field, rounded up |
| `Schedule.RoundsNeeded` | trumpsbrackets.py:109-115 | the loop counts RoundCount(cards) halvings, and after that many a field of at least one card is down to one |
| `Schedule.RoundCountExamples` | trumpsbrackets.py:109-115 | the round counts of 1, 2, 3, 4, 8 and 9 cards are 0, 1, 2, 2, 3 and 4 |
| `Schedule.RoundCountIsCeilLog2` | trumpsbrackets.py:109-115 | the round count is the base-2 logarithm rounded up: p ≤ 2^RoundCount(p) and, for p ≥ 2, 2^(RoundCount(p)-1) < p |
| `Schedule.FieldSizeOne` | trumpsbrackets.py:111-113 | a field of at least one card is a single card exactly from round RoundCount(n) on |
| `Schedule.FieldSizeDecreasing` | trumpsbrackets.py:113 | each later round's field is at most half, rounded up, of an earlier one |
| `Bracket.ShuffledKeepsElements` | trumpsbrackets.py:68 | whatever the draws, the shuffle is a permutation of the list |
| `Bracket.Roster.Shuffle` | trumpsbrackets.py:68 | the in-place shuffle swaps each position from the last down to the second with a drawn position at or below it, ending in `Shuffled`, and uses max(n-1, 0) draws |
| `Bracket.Roster.Pop` | trumpsbrackets.py:70 | `pop` removes and returns the last card |
| `Bracket.PlayPairs` | trumpsbrackets.py:71-75 | pairing k cards gives as many winners as losers, one pair per two cards |
| `Bracket.Fight` | trumpsbrackets.py:66-77 | a round on n shuffled cards has ceil(n/2) winners and floor(n/2) losers |
| `Bracket.PlayPairsKeepsCards` | trumpsbrackets.py:71-75 | pairing an even number of cards loses no card and invents none: winners and losers together are those cards |
| `Bracket.PlayPairsResolves` | trumpsbrackets.py:71-75 | match j plays the two cards 2j places below the top, the first popped as `compare`'s first argument, and its winner and loser obey the match rule |
| `Bracket.FightKeepsCards` | trumpsbrackets.py:66-77 | winners followed by losers are a permutation of the shuffled field |
| `Bracket.FightByeAdvances` | trumpsbrackets.py:69-70 | on an odd field the last card of the shuffled list is the first winner, without a match |
| `Bracket.FightResolves` | trumpsbrackets.py:71-75 | every match of a round, recorded after the bye, is between the two cards popped for it and obeys the match rule |
| `Bracket.PlayOff` | trumpsbrackets.py:71-75 | the pop-two loop empties the list and appends exactly the winners and losers of `PlayPairs` |
| `Bracket.FightRoster` | trumpsbrackets.py:63-77 | the caller's list ends empty, and the winners, losers and draws used are those of `Round` on the old list |
| `Knockout.RoundFacts` | trumpsbrackets.py:63-77 | a call of `fight_roster` keeps every card, advances ceil(n/2) and knocks out floor(n/2) |
| `Knockout.RoundOfHalves` | trumpsbrackets.py:63-77 | `fight_roster`'s round is a round rule that halves the field and keeps the cards |
| `Knockout.FinalMatch` | trumpsbrackets.py:69-75 | on two cards a round is one match, won by a card winning at least as many attributes as it loses |
| `Knockout.RoundOfFairFinal` | trumpsbrackets.py:69-75 | `fight_roster`'s final is won by the card winning at least as many attributes as it loses |
| `Knockout.KnockKeepsCards` | trumpsbrackets.py:80-90 | the finishing order is a permutation of the input: every card exactly as often as it entered |
| `Knockout.KnockSize` | trumpsbrackets.py:83-89 | every card is placed, and n ≥ 2 cards take RoundCount(n) calls of `fight_roster` (one call for a single card, none for none) |
| `Knockout.RoundSizes` | trumpsbrackets.py:83-89 | round k knocks out FieldSize(n, k) / 2 cards: half of the field of that round, rounded down |
| `Knockout.RoundPlaces` | trumpsbrackets.py:84-85 | the losers of round k sit in the finishing order right after the n - FieldSize(n, k) cards knocked out before them, in the order they lost |
| `Knockout.KnockFinal` | trumpsbrackets.py:85-88 | on at least two cards the last round knocks out only the runner-up, placed just before the champion, who is last and wins at least as many attributes against it as it loses |
| `Knockout.TournamentShape` | trumpsbrackets.py:80-90 | for `one_round`: a permutation of the cards, [] for [], RoundCount(n) calls of `fight_roster`, and the champion last after the runner-up |
| `Knockout.KnockStep` | trumpsbrackets.py:83-89 | one pass of the loop keeps the result followed by the rest's finishing order equal to the whole, and the field shrinks |
| `Knockout.OneRound` | trumpsbrackets.py:80-90 | the result, the losers of each call of `fight_roster` the loop makes (ghost `calls`) and the draws used are those of `Tournament` from the stream's position; so the loop calls `fight_roster` exactly RoundCount(n) times for n ≥ 2 (`Knockout.KnockSize`), and each call's losers are the round whose places `Knockout.RoundPlaces` states |
| `Tally.EvaluateRanges` | trumpsbrackets.py:93-95 | the ranks name exactly the cards of the list, each rank lies in 1..n, and the last card gets rank 1, even when names repeat |
| `Tally.EvaluateBijection` | trumpsbrackets.py:93-95 | with distinct names, position i gets rank n - i and no two names share a rank, so names map one-to-one onto 1..n |
| `Tally.Increment` | trumpsbrackets.py:105 | counting a rank once more adds one to that rank's count and leaves every other count alone |
| `Tally.RecordTrial` | trumpsbrackets.py:104-105 | the loop over the ranks of one bracket, in any order, adds each name's rank to that name's counter and nothing else |
| `Tally.TournamentOf` | trumpsbrackets.py:103 | the bracket `n_rounds` plays ranks every card of the field exactly once |
| `Tally.TrialRanks` | trumpsbrackets.py:103 | the ranks of a finishing order of the cards name exactly the cards and lie in 1..n |
| `Tally.Simulation` | trumpsbrackets.py:98-107 | after any number of brackets there is a counter for every card name and for nothing else |
| `Tally.SimulationCounts` | trumpsbrackets.py:98-107 | after `trials` brackets each name's counts over ranks 1..n sum to `trials`, and no rank outside 1..n is counted |
| `Tally.NRounds` | trumpsbrackets.py:98-107 | the counters and draws used are those of `Simulation` over max(n, 0) brackets |
| `Tally.Buckets` | trumpsbrackets.py:157-161 | there is one bucket per round, RoundCount(N) of them; bucket k is the count of ranks FieldSize(N, k+1)+1 .. FieldSize(N, k); "won" is the count of rank 1 |
| `Tally.BucketsTelescope` | trumpsbrackets.py:158-160 | the buckets of the first k rounds hold exactly the ranks FieldSize(N, k)+1 .. N |
| `Tally.BucketsComplete` | trumpsbrackets.py:157-161 | "won" plus all lost buckets is the count over all ranks 1..N |
| `Tally.BucketsCountTrials` | trumpsbrackets.py:157-161 | for each card of a simulation, "won" plus all lost buckets is the number of brackets played |
| `Tally.RangesCover` | trumpsbrackets.py:158-160 | a rank in 1..N lies in some round's range exactly when it is not 1 |
| `Tally.RangesDisjoint` | trumpsbrackets.py:158-160 | no rank lies in the ranges of two rounds |
| `Tally.LoserRank` | trumpsbrackets.py:158-160 | with distinct names, the i-th card knocked out in round k gets rank FieldSize(N, k) - i, inside the k-th range, so bucket k counts exactly the losses in round k |

## Left out

- Reading the CSV file (`read_cards`), the command line, building, sorting and printing the pandas
  table, and the IPython prompt: these are input and output. Only the bucketing arithmetic of `main`
  is modelled, per card and over a rank→count map.
- The progress printing of `n_rounds` is console output and is left out.
- Python's random generator: the model does not reproduce the Mersenne Twister or `randbelow`'s
  rejection sampling. A draw below `k` is the stream's next answer modulo `k`, one answer per draw, and
  `draws` is arbitrary. The shuffle takes the same swaps as CPython's `random.shuffle`, and
  `random.choice([0, 1])` takes one draw. Nothing about the odds is stated.
- Attribute values are integers. They are only compared through the sign of a difference, and finite
  floats can be replaced by integers in the same order. NaN, infinities and rounding are not modelled.
- Lists are values. The caller's list of `one_round` cannot change, because `one_round` copies it.
  The list `fight_roster` empties is a `Roster` object, and a fresh one is made for each round's
  winners, because the winners list is not shared with anything else.
- `Tally.LoserRank`: stated for cards with distinct names only. With a repeated name, a later place
  overwrites an earlier one in `evaluate_result`, and the earlier card's rank is lost.
- `Tally.Buckets`: works on one card's counter, and reads column positions in the table as ranks.
  That reading holds only with distinct names: the columns are sorted, and after at least one bracket
  every rank 1..N occurs. With a repeated name, `evaluate_result` drops ranks, so some columns are
  missing and the source's positional slices pick up other ranks than the model's buckets, which always
  read ranks. With no bracket played, the source already fails when the table is sorted by column 1
  (trumpsbrackets.py:153), while the model reads a count of 0.
- `Tally.RecordTrial`: a name missing from the counters would raise `KeyError` in the source. It is
  required away, because the ranks always name exactly the cards (`Tally.TrialRanks`).
