/** Tallying many knockouts: the finishing order of one knockout becomes a
    rank per card name (the champion 1, the first card knocked out n), the
    ranks of many knockouts are counted per name, and the counts of each name
    are summed into one bucket per round: how often the card went out in that
    round, and how often it won. */
module Tally {
  import opened Cards
  import opened Randomness
  import opened Schedule
  import opened Bracket
  import opened Knockout

  // ---------------------------------------------------------------- ranks

  /** The dictionary `evaluate_result` has built after the first `k` entries of
      the finishing order: position `i` maps its card's name to n - i, and a
      later entry for the same name overwrites an earlier one. */
  function EvaluateUpTo(ranks: seq<Card>, k: nat): map<string, int>
    requires k <= |ranks|
  {
    if k == 0 then map[]
    else EvaluateUpTo(ranks, k - 1)[ranks[k - 1].name := |ranks| - (k - 1)]
  }

  /** `evaluate_result(ranks)`: each card's name with its rank, n for the
      first card of the finishing order down to 1 for the last. */
  function EvaluateResult(ranks: seq<Card>): map<string, int> {
    EvaluateUpTo(ranks, |ranks|)
  }

  /** After `k` entries the keys are the names of the first `k` cards and the
      ranks lie between n - k + 1 and n. */
  lemma {:induction false} EvaluateUpToBounds(ranks: seq<Card>, k: nat)
    requires k <= |ranks|
    ensures EvaluateUpTo(ranks, k).Keys == set i | 0 <= i < k :: ranks[i].name
    ensures forall name :: name in EvaluateUpTo(ranks, k) ==>
              |ranks| - k < EvaluateUpTo(ranks, k)[name] <= |ranks|
  {
    if k > 0 {
      EvaluateUpToBounds(ranks, k - 1);
      assert (set i | 0 <= i < k :: ranks[i].name)
          == (set i | 0 <= i < k - 1 :: ranks[i].name) + {ranks[k - 1].name};
    }
  }

  /** With distinct names, the card at position `i < k` has rank n - i after
      `k` entries. */
  lemma {:induction false} EvaluateUpToPosition(ranks: seq<Card>, k: nat, i: nat)
    requires DistinctNames(ranks) && i < k <= |ranks|
    ensures ranks[i].name in EvaluateUpTo(ranks, k)
    ensures EvaluateUpTo(ranks, k)[ranks[i].name] == |ranks| - i
  {
    if i < k - 1 {
      EvaluateUpToPosition(ranks, k - 1, i);
      assert ranks[i].name != ranks[k - 1].name;
    }
  }

  /** Every card of the finishing order is ranked, and nothing else; every
      rank lies between 1 and n; and the last card, the champion, ranks 1,
      whether or not names repeat. */
  lemma EvaluateRanges(ranks: seq<Card>)
    ensures EvaluateResult(ranks).Keys == Names(ranks)
    ensures forall name :: name in EvaluateResult(ranks) ==> 1 <= EvaluateResult(ranks)[name] <= |ranks|
    ensures |ranks| >= 1 ==> EvaluateResult(ranks)[ranks[|ranks| - 1].name] == 1
  {
    EvaluateUpToBounds(ranks, |ranks|);
    forall name
      ensures name in (set i | 0 <= i < |ranks| :: ranks[i].name) <==> name in Names(ranks)
    {
      if name in Names(ranks) {
        var c :| c in ranks && c.name == name;
        var i :| 0 <= i < |ranks| && ranks[i] == c;
        assert ranks[i].name == name;
      }
    }
  }

  /** With distinct names the ranks are a bijection from the names onto
      1..n: position `i` gets rank n - i, and no two names share a rank. */
  lemma EvaluateBijection(ranks: seq<Card>)
    requires DistinctNames(ranks)
    ensures forall i :: 0 <= i < |ranks| ==>
              ranks[i].name in EvaluateResult(ranks) && EvaluateResult(ranks)[ranks[i].name] == |ranks| - i
    ensures forall a, b :: (a in EvaluateResult(ranks) && b in EvaluateResult(ranks) &&
              EvaluateResult(ranks)[a] == EvaluateResult(ranks)[b]) ==> a == b
  {
    var res := EvaluateResult(ranks);
    forall i | 0 <= i < |ranks|
      ensures ranks[i].name in res && res[ranks[i].name] == |ranks| - i
    {
      EvaluateUpToPosition(ranks, |ranks|, i);
    }
    EvaluateUpToBounds(ranks, |ranks|);
    forall a, b | a in res && b in res && res[a] == res[b]
      ensures a == b
    {
      var i :| 0 <= i < |ranks| && ranks[i].name == a;
      var j :| 0 <= j < |ranks| && ranks[j].name == b;
      EvaluateUpToPosition(ranks, |ranks|, i);
      EvaluateUpToPosition(ranks, |ranks|, j);
    }
  }

  // ------------------------------------------------------------- counters

  /** A `Counter` of ranks: how often each rank was reached. */
  type Counter = map<int, nat>

  /** The count of `rank`; a rank never reached counts 0. */
  function Get(c: Counter, rank: int): nat {
    if rank in c then c[rank] else 0
  }

  /** Counting `rank` once more: that rank counts one more, every other rank is
      unchanged. */
  function Increment(c: Counter, rank: int): (r: Counter)
    ensures Get(r, rank) == Get(c, rank) + 1
    ensures forall q :: q != rank ==> Get(r, q) == Get(c, q)
    ensures r.Keys == c.Keys + {rank}
  {
    c[rank := Get(c, rank) + 1]
  }

  /** The counts of the ranks `lo` to `hi`. */
  function RangeSum(c: Counter, lo: int, hi: int): nat
    decreases hi - lo
  {
    if hi < lo then 0 else RangeSum(c, lo, hi - 1) + Get(c, hi)
  }

  /** Counting one more of a rank between `lo` and `hi` adds one to their sum. */
  lemma {:induction false} RangeSumIncrement(c: Counter, rank: int, lo: int, hi: int)
    requires lo <= rank <= hi
    ensures RangeSum(Increment(c, rank), lo, hi) == RangeSum(c, lo, hi) + 1
    decreases hi - lo
  {
    if hi > rank {
      RangeSumIncrement(c, rank, lo, hi - 1);
    } else {
      RangeSumUnchanged(c, rank, lo, hi - 1);
    }
  }

  /** Counting one more of a rank above `hi` leaves the sum up to `hi` alone. */
  lemma {:induction false} RangeSumUnchanged(c: Counter, rank: int, lo: int, hi: int)
    requires hi < rank
    ensures RangeSum(Increment(c, rank), lo, hi) == RangeSum(c, lo, hi)
    decreases hi - lo
  {
    if hi >= lo {
      RangeSumUnchanged(c, rank, lo, hi - 1);
    }
  }

  /** The sum over `lo..hi` splits at any `mid` between them. */
  lemma {:induction false} RangeSumSplit(c: Counter, lo: int, mid: int, hi: int)
    requires lo - 1 <= mid <= hi
    ensures RangeSum(c, lo, hi) == RangeSum(c, lo, mid) + RangeSum(c, mid + 1, hi)
    decreases hi - mid
  {
    if hi > mid {
      RangeSumSplit(c, lo, mid, hi - 1);
    }
  }

  // ----------------------------------------------------------- simulation

  /** An empty counter for each card name. */
  function EmptyCounters(cards: seq<Card>): map<string, Counter> {
    map name | name in Names(cards) :: map[]
  }

  /** Each name of one knockout counted once more at its rank; the order of
      the names does not matter, since each touches only its own counter. */
  function Recorded(ranks: map<string, Counter>, results: map<string, int>): map<string, Counter>
    requires results.Keys <= ranks.Keys
  {
    RecordedExcept(ranks, results, {})
  }

  /** `ranks` with the ranks of `results` recorded, except those of the
      names in `todo`. */
  function RecordedExcept(ranks: map<string, Counter>, results: map<string, int>, todo: set<string>)
    : map<string, Counter>
    requires results.Keys <= ranks.Keys
  {
    map name | name in ranks :: if name in results && name !in todo then Increment(ranks[name], results[name])
                                else ranks[name]
  }

  /** One knockout of a field from a position of the random stream. */
  type Trial = (seq<Card>, nat) -> Standings

  /** A knockout that ranks every card of the field, each once. */
  ghost predicate Permutes(trial: Trial) {
    forall cards, used :: multiset(trial(cards, used).ranking) == multiset(cards)
  }

  /** The knockout of `one_round`, which ranks every card once. */
  function TournamentOf(ordering: seq<string>, draws: nat -> nat): (trial: Trial)
    ensures Permutes(trial)
  {
    TournamentPermutes(ordering, draws);
    (cards: seq<Card>, used: nat) => Tournament(cards, ordering, draws, used)
  }

  /** Every knockout of `one_round` ranks each card of its field once. */
  lemma TournamentPermutes(ordering: seq<string>, draws: nat -> nat)
    ensures forall cards, used :: multiset(Tournament(cards, ordering, draws, used).ranking) == multiset(cards)
  {
    forall cards, used
      ensures multiset(Tournament(cards, ordering, draws, used).ranking) == multiset(cards)
    {
      TournamentShape(cards, ordering, draws, used);
    }
  }

  /** The ranks of a finishing order of the cards name exactly the cards'
      names, and each lies between 1 and n. */
  lemma TrialRanks(cards: seq<Card>, ranking: seq<Card>)
    requires multiset(ranking) == multiset(cards)
    ensures EvaluateResult(ranking).Keys == Names(cards)
    ensures forall name :: name in EvaluateResult(ranking) ==> 1 <= EvaluateResult(ranking)[name] <= |cards|
  {
    PermutationKeepsNames(ranking, cards);
    EvaluateRanges(ranking);
    assert |ranking| == |multiset(ranking)| == |cards|;
  }

  /** The counters after `trials` knockouts from position `used` of the random
      stream, and the stream position after them. Each counter belongs to a
      name of the cards, and every name has one. */
  function Simulation(cards: seq<Card>, trials: nat, trial: Trial, used: nat): (s: (map<string, Counter>, nat))
    requires Permutes(trial)
    ensures s.0.Keys == Names(cards)
    decreases trials
  {
    if trials == 0 then (EmptyCounters(cards), used)
    else
      var prev := Simulation(cards, trials - 1, trial, used);
      var t := trial(cards, prev.1);
      TrialRanks(cards, t.ranking);
      (Recorded(prev.0, EvaluateResult(t.ranking)), t.used)
  }

  /** Every counter of `ranks` holds ranks between 1 and `n` only, `trials`
      of them in all. */
  ghost predicate Counted(ranks: map<string, Counter>, n: nat, trials: nat) {
    forall name :: name in ranks ==>
      && RangeSum(ranks[name], 1, n) == trials
      && forall rank :: rank in ranks[name] ==> 1 <= rank <= n
  }

  /** Counting one more trial, in which every name got a rank between 1 and
      `n`, adds one to every counter's total. */
  lemma RecordedCounted(ranks: map<string, Counter>, results: map<string, int>, n: nat, trials: nat)
    requires results.Keys == ranks.Keys
    requires forall name :: name in results ==> 1 <= results[name] <= n
    requires Counted(ranks, n, trials)
    ensures Counted(Recorded(ranks, results), n, trials + 1)
  {
    var r := Recorded(ranks, results);
    forall name | name in r
      ensures RangeSum(r[name], 1, n) == trials + 1
    {
      RangeSumIncrement(ranks[name], results[name], 1, n);
    }
  }

  /** After `trials` knockouts every name has counted ranks between 1 and n
      only, `trials` of them in all: one per knockout, even where names
      repeat, since a repeated name keeps one rank per knockout. */
  lemma {:induction false} SimulationCounts(cards: seq<Card>, trials: nat, trial: Trial, used: nat)
    requires Permutes(trial)
    ensures Counted(Simulation(cards, trials, trial, used).0, |cards|, trials)
    decreases trials
  {
    if trials == 0 {
      EmptyCounted(cards);
    } else {
      SimulationCounts(cards, trials - 1, trial, used);
      CountsStep(cards, trials, trial, used);
    }
  }

  /** The fresh counters count nothing. */
  lemma EmptyCounted(cards: seq<Card>)
    ensures Counted(EmptyCounters(cards), |cards|, 0)
  {
    forall name | name in EmptyCounters(cards)
      ensures RangeSum(EmptyCounters(cards)[name], 1, |cards|) == 0
    {
      EmptySum(1, |cards|);
    }
  }

  /** One more knockout adds one rank between 1 and n to every counter. */
  lemma CountsStep(cards: seq<Card>, trials: nat, trial: Trial, used: nat)
    requires Permutes(trial) && trials >= 1
    requires Counted(Simulation(cards, trials - 1, trial, used).0, |cards|, trials - 1)
    ensures Counted(Simulation(cards, trials, trial, used).0, |cards|, trials)
  {
    var prev := Simulation(cards, trials - 1, trial, used);
    var ranking := trial(cards, prev.1).ranking;
    TrialRanks(cards, ranking);
    RecordedCounted(prev.0, EvaluateResult(ranking), |cards|, trials - 1);
  }

  /** A counter with nothing counted sums to 0. */
  lemma {:induction false} EmptySum(lo: int, hi: int)
    ensures RangeSum(map[], lo, hi) == 0
    decreases hi - lo
  {
    if hi >= lo {
      EmptySum(lo, hi - 1);
    }
  }

  /** The inner loop of `n_rounds`: counts each name's rank of one knockout in
      that name's counter. A name missing from the counters would be a
      `KeyError`; the callers only pass ranks of the same cards. */
  method RecordTrial(ranks: map<string, Counter>, results: map<string, int>) returns (out: map<string, Counter>)
    requires results.Keys <= ranks.Keys
    ensures out == Recorded(ranks, results)
  {
    out := ranks;
    var todo := results.Keys;
    while todo != {}
      invariant todo <= results.Keys
      invariant out == RecordedExcept(ranks, results, todo)
      decreases |todo|
    {
      var name :| name in todo;
      RecordOne(ranks, results, todo, name);
      assert |todo - {name}| < |todo|;
      out := out[name := Increment(out[name], results[name])];
      todo := todo - {name};
    }
  }

  /** Recording the rank of one more name of `todo`. */
  lemma RecordOne(ranks: map<string, Counter>, results: map<string, int>, todo: set<string>, name: string)
    requires results.Keys <= ranks.Keys && name in todo && todo <= results.Keys
    ensures var before := RecordedExcept(ranks, results, todo);
            && name in before
            && before[name := Increment(before[name], results[name])] == RecordedExcept(ranks, results, todo - {name})
  {
  }

  /** One more trial of the simulation, in the terms of a call of
      `one_round`: the ranks of its finishing order recorded in the counters
      so far, and the stream position after it. */
  lemma SimulationNext(cards: seq<Card>, trials: nat, trial: Trial, used: nat, ranks: map<string, Counter>,
                       now: nat, order: seq<Card>, after: nat)
    requires Permutes(trial)
    requires ranks == Simulation(cards, trials, trial, used).0 && now == Simulation(cards, trials, trial, used).1
    requires order == trial(cards, now).ranking && after == trial(cards, now).used
    ensures EvaluateResult(order).Keys <= ranks.Keys
    ensures Simulation(cards, trials + 1, trial, used).0 == Recorded(ranks, EvaluateResult(order))
    ensures Simulation(cards, trials + 1, trial, used).1 == after
  {
    TrialRanks(cards, order);
  }

  /** `n_rounds(cards, n, ordering)`: a counter per card name, then `n`
      knockouts (none when `n` is not positive), each one's ranks counted
      per name. */
  method NRounds(cards: seq<Card>, n: int, ordering: seq<string>, rng: Source) returns (ranks: map<string, Counter>)
    modifies rng
    ensures var s := Simulation(cards, if n > 0 then n else 0, TournamentOf(ordering, rng.draws), old(rng.used));
            ranks == s.0 && rng.used == s.1
  {
    ghost var trial := TournamentOf(ordering, rng.draws);
    ghost var trials := if n > 0 then n else 0;
    ranks := EmptyCounters(cards);
    var i := 0;
    while i < n
      invariant 0 <= i <= trials
      invariant ranks == Simulation(cards, i, trial, old(rng.used)).0
      invariant rng.used == Simulation(cards, i, trial, old(rng.used)).1
    {
      ghost var used := rng.used;
      var order, _ := OneRound(cards, ordering, rng);
      var results := EvaluateResult(order);
      SimulationNext(cards, i, trial, old(rng.used), ranks, used, order, rng.used);
      ranks := RecordTrial(ranks, results);
      i := i + 1;
    }
    assert i == trials;
  }

  // -------------------------------------------------------------- buckets

  /** The bucket of round `k` (from 0) for a field of `n` cards: the counts of
      the ranks FieldSize(n, k + 1) + 1 to FieldSize(n, k), the places of the
      cards that round knocks out. */
  function Lost(c: Counter, n: nat, k: nat): nat {
    RangeSum(c, FieldSize(n, k + 1) + 1, FieldSize(n, k))
  }

  /** The sum of a list of counts. */
  function Total(s: seq<nat>): nat {
    if s == [] then 0 else Total(s[..|s| - 1]) + s[|s| - 1]
  }

  /** The bucketing after `n_rounds` in `main`, for one card's counter over a
      field of `ncards` cards: for each round the sum of the rank columns from
      position half the field (rounded up) to the end of the field, then the
      field halves; `won` is the count of rank 1. */
  method Buckets(counts: Counter, ncards: nat) returns (lost: seq<nat>, won: nat)
    ensures |lost| == RoundCount(ncards)
    ensures forall k :: 0 <= k < |lost| ==> lost[k] == Lost(counts, ncards, k)
    ensures won == Get(counts, 1)
  {
    lost := [];
    var m := ncards;
    var rounds := RoundsNeeded(ncards);
    for round := 0 to rounds
      invariant |lost| == round && m == FieldSize(ncards, round)
      invariant forall k :: 0 <= k < round ==> lost[k] == Lost(counts, ncards, k)
    {
      FieldSizeStep(ncards, round);
      lost := lost + [RangeSum(counts, m / 2 + m % 2 + 1, m)];
      m := m / 2 + m % 2;
    }
    won := Get(counts, 1);
  }

  /** The buckets of the first `k` rounds hold the ranks FieldSize(n, k) + 1
      to n. */
  lemma {:induction false} BucketsTelescope(c: Counter, n: nat, lost: seq<nat>, k: nat)
    requires k <= |lost| && forall j :: 0 <= j < |lost| ==> lost[j] == Lost(c, n, j)
    ensures Total(lost[..k]) == RangeSum(c, FieldSize(n, k) + 1, n)
  {
    if k > 0 {
      BucketsTelescope(c, n, lost, k - 1);
      assert lost[..k][..k - 1] == lost[..k - 1];
      FieldSizeStep(n, k - 1);
      FieldSizeShrinks(n, k - 1);
      RangeSumSplit(c, FieldSize(n, k) + 1, FieldSize(n, k - 1), n);
    }
  }

  /** The buckets are complete: with the wins they account for every rank of
      a field of at least one card, each exactly once. */
  lemma BucketsComplete(c: Counter, n: nat, lost: seq<nat>, won: nat)
    requires n >= 1 && |lost| == RoundCount(n)
    requires forall k :: 0 <= k < |lost| ==> lost[k] == Lost(c, n, k)
    requires won == Get(c, 1)
    ensures won + Total(lost) == RangeSum(c, 1, n)
  {
    BucketsTelescope(c, n, lost, |lost|);
    assert lost[..|lost|] == lost;
    FieldSizeOne(n, |lost|);
    RangeSumSplit(c, 1, 1, n);
  }

  /** For every card of a simulation, the lost-in-round buckets and the wins
      of its counter add up to the number of knockouts played. */
  lemma BucketsCountTrials(cards: seq<Card>, trials: nat, trial: Trial, used: nat, name: string,
                           lost: seq<nat>, won: nat)
    requires Permutes(trial) && |cards| >= 1
    requires name in Simulation(cards, trials, trial, used).0
    requires var c := Simulation(cards, trials, trial, used).0[name];
             && |lost| == RoundCount(|cards|)
             && (forall k :: 0 <= k < |lost| ==> lost[k] == Lost(c, |cards|, k))
             && won == Get(c, 1)
    ensures won + Total(lost) == trials
  {
    SimulationCounts(cards, trials, trial, used);
    BucketsComplete(Simulation(cards, trials, trial, used).0[name], |cards|, lost, won);
  }

  /** The rank `rank` is in the range of round `k`. */
  predicate InRange(n: nat, k: nat, rank: int) {
    FieldSize(n, k + 1) < rank <= FieldSize(n, k)
  }

  /** The round ranges cover the ranks 2..n: a rank of the field lies in the
      range of some round exactly when it is not 1. */
  lemma RangesCover(n: nat, rank: int)
    requires n >= 1 && 1 <= rank <= n
    ensures rank >= 2 <==> exists k :: 0 <= k < RoundCount(n) && InRange(n, k, rank)
  {
    if rank >= 2 {
      FieldSizeOne(n, RoundCount(n));
      Crossing(n, rank, RoundCount(n));
    }
    if exists k :: 0 <= k < RoundCount(n) && InRange(n, k, rank) {
      var k :| 0 <= k < RoundCount(n) && InRange(n, k, rank);
      FieldSizeShrinks(n, k + 1);
    }
  }

  /** The round ranges are disjoint: a rank in the range of round `k1` is in
      the range of no later round. */
  lemma RangesDisjoint(n: nat, rank: int, k1: nat, k2: nat)
    requires k1 < k2 && InRange(n, k1, rank)
    ensures !InRange(n, k2, rank)
  {
    FieldSizeStep(n, k1);
    FieldSizeDecreasing(n, k1, k2);
  }

  /** A rank above FieldSize(n, K), K >= 1, lies in the range of one of the
      first `K` rounds. */
  lemma {:induction false} Crossing(n: nat, rank: int, bound: nat)
    requires 1 <= bound && FieldSize(n, bound) < rank <= n
    ensures exists k :: 0 <= k < bound && InRange(n, k, rank)
  {
    if rank <= FieldSize(n, bound - 1) {
      assert InRange(n, bound - 1, rank);
    } else {
      Crossing(n, rank, bound - 1);
    }
  }

  /** The losers of round `k` of a knockout of cards with distinct names get
      ranks in the `k`-th range, FieldSize(n, k + 1) + 1 to FieldSize(n, k):
      the card `i`-th knocked out in that round gets FieldSize(n, k) - i. So
      `lost_{k+1}` counts exactly the knockouts the card lost in round k + 1. */
  lemma LoserRank(cards: seq<Card>, ordering: seq<string>, draws: nat -> nat, used: nat, k: nat, i: nat)
    requires DistinctNames(cards)
    requires k < |Tournament(cards, ordering, draws, used).rounds|
    requires i < |Tournament(cards, ordering, draws, used).rounds[k]|
    ensures var t := Tournament(cards, ordering, draws, used);
            var res := EvaluateResult(t.ranking);
            && t.rounds[k][i].name in res
            && res[t.rounds[k][i].name] == FieldSize(|cards|, k) - i
            && InRange(|cards|, k, res[t.rounds[k][i].name])
  {
    var t := Tournament(cards, ordering, draws, used);
    var play := RoundOf(ordering, draws);
    RoundOfHalves(ordering, draws);
    RoundSizes(cards, play, used, k);
    RoundPlaces(cards, play, used, k, i);
    TournamentShape(cards, ordering, draws, used);
    PermutationKeepsNames(cards, t.ranking);
    EvaluateBijection(t.ranking);
    FieldSizeStep(|cards|, k);
  }
}
