/** A whole knockout: rounds of `fight_roster` on the winners of the round
    before, until a single card is left. The finishing order lists the cards
    knocked out first at the front and the champion last.

    The shape of the knockout does not depend on how a round pairs the cards
    off, only on a round halving the field and keeping its cards; so the
    knockout is defined, and its shape proved, for any round rule with those
    two properties, and `fight_roster`'s round is proved to be one. */
module Knockout {
  import opened Cards
  import opened Matches
  import opened Randomness
  import opened Schedule
  import opened Bracket

  /** A round rule: the round played on a field from a position of the
      random stream. */
  type RoundRule = (seq<Card>, nat) -> Played

  /** A round rule that advances half the field, rounded up, knocks out half,
      rounded down, and loses and invents no card. */
  ghost predicate Halves(play: RoundRule) {
    forall field: seq<Card>, used: nat ::
      && |play(field, used).winners| == Half(|field|)
      && |play(field, used).losers| == |field| / 2
      && multiset(play(field, used).winners + play(field, used).losers) == multiset(field)
  }

  /** A round rule whose match on a field of two cards is won by the card that
      wins at least as many attributes as it loses. */
  ghost predicate FairFinal(play: RoundRule, ordering: seq<string>) {
    forall field: seq<Card>, used: nat ::
      |field| == 2 && |play(field, used).winners| >= 1 && |play(field, used).losers| >= 1 ==>
        AttributesWon(play(field, used).winners[0].values, play(field, used).losers[0].values, ordering)
        >= AttributesWon(play(field, used).losers[0].values, play(field, used).winners[0].values, ordering)
  }

  /** What `one_round` produces from a position of the random stream: the
      finishing order, the losers of each call of `fight_roster` in call
      order, and the stream position after the last call. */
  datatype Standings = Standings(ranking: seq<Card>, rounds: seq<seq<Card>>, used: nat)

  /** The knockout on `cards` under the round rule `play`. An empty field
      plays nothing; otherwise a round is played, its losers come next in the
      finishing order, and the knockout goes on with the winners unless a
      single winner is left, who comes last. */
  function Knock(cards: seq<Card>, play: RoundRule, used: nat): Standings
    requires Halves(play)
    decreases |cards|
  {
    if cards == [] then Standings([], [], used)
    else
      var r := play(cards, used);
      if |r.winners| == 1 then Standings(r.losers + r.winners, [r.losers], r.used)
      else
        var rest := Knock(r.winners, play, r.used);
        Standings(r.losers + rest.ranking, [r.losers] + rest.rounds, rest.used)
  }

  /** The round rule of `fight_roster`. */
  function RoundOf(ordering: seq<string>, draws: nat -> nat): RoundRule {
    (cards: seq<Card>, used: nat) => Round(cards, ordering, draws, used)
  }

  /** A call of `fight_roster` keeps every card, advances half the field
      (rounded up) and knocks out half (rounded down). */
  lemma RoundFacts(cards: seq<Card>, ordering: seq<string>, draws: nat -> nat, used: nat)
    ensures var r := Round(cards, ordering, draws, used);
            && multiset(r.winners + r.losers) == multiset(cards)
            && |r.winners| == Half(|cards|) && |r.losers| == |cards| / 2
  {
    var shuffled := Shuffled(cards, |cards| - 1, draws, used);
    ShuffledKeepsElements(cards, |cards| - 1, draws, used);
    FightKeepsCards(shuffled, ordering, draws, used + ShuffleDraws(|cards|));
  }

  /** `fight_roster`'s round rule halves the field and keeps the cards. */
  lemma RoundOfHalves(ordering: seq<string>, draws: nat -> nat)
    ensures Halves(RoundOf(ordering, draws))
  {
    forall field: seq<Card>, used: nat
      ensures var r := RoundOf(ordering, draws)(field, used);
              && |r.winners| == Half(|field|) && |r.losers| == |field| / 2
              && multiset(r.winners + r.losers) == multiset(field)
    {
      RoundFacts(field, ordering, draws, used);
    }
  }

  /** On two cards `fight_roster` plays a single match, which the card winning
      at least as many attributes as it loses wins. */
  lemma FinalMatch(field: seq<Card>, ordering: seq<string>, draws: nat -> nat, used: nat)
    requires |field| == 2
    ensures var r := Round(field, ordering, draws, used);
            && |r.winners| == 1 && |r.losers| == 1
            && AttributesWon(r.winners[0].values, r.losers[0].values, ordering)
               >= AttributesWon(r.losers[0].values, r.winners[0].values, ordering)
  {
    var shuffled := Shuffled(field, 1, draws, used);
    var r := Round(field, ordering, draws, used);
    RoundFacts(field, ordering, draws, used);
    FightResolves(shuffled, ordering, draws, used + ShuffleDraws(2), 0);
    WinnerWinsMoreAttributes(shuffled[1], shuffled[0], r.winners[0], r.losers[0], ordering);
  }

  /** `fight_roster`'s final is won by the card winning at least as many
      attributes as it loses. */
  lemma RoundOfFairFinal(ordering: seq<string>, draws: nat -> nat)
    ensures FairFinal(RoundOf(ordering, draws), ordering)
  {
    forall field: seq<Card>, used: nat | |field| == 2
      ensures var r := RoundOf(ordering, draws)(field, used);
              |r.winners| >= 1 && |r.losers| >= 1 ==>
                AttributesWon(r.winners[0].values, r.losers[0].values, ordering)
                >= AttributesWon(r.losers[0].values, r.winners[0].values, ordering)
    {
      FinalMatch(field, ordering, draws, used);
    }
  }

  /** `one_round` from position `used` of the random stream. */
  function Tournament(cards: seq<Card>, ordering: seq<string>, draws: nat -> nat, used: nat): Standings {
    RoundOfHalves(ordering, draws);
    Knock(cards, RoundOf(ordering, draws), used)
  }

  /** Putting the losers of a round in front of the finishing order of its
      winners accounts for the whole field. */
  lemma StandingsKeepCards<T>(ranking: seq<T>, losers: seq<T>, winners: seq<T>, later: seq<T>, whole: seq<T>)
    requires ranking == losers + later
    requires multiset(later) == multiset(winners)
    requires multiset(winners + losers) == multiset(whole)
    ensures multiset(ranking) == multiset(whole)
  {
    calc {
      multiset(ranking);
      multiset(losers) + multiset(later);
      multiset(winners + losers);
    }
  }

  /** The finishing order is a permutation of the field: every card is ranked
      exactly as often as it entered. */
  lemma {:induction false} KnockKeepsCards(cards: seq<Card>, play: RoundRule, used: nat)
    requires Halves(play)
    ensures multiset(Knock(cards, play, used).ranking) == multiset(cards)
    decreases |cards|
  {
    if cards != [] {
      var r := play(cards, used);
      var t := Knock(cards, play, used);
      if |r.winners| == 1 {
        StandingsKeepCards(t.ranking, r.losers, r.winners, r.winners, cards);
      } else {
        KnockKeepsCards(r.winners, play, r.used);
        StandingsKeepCards(t.ranking, r.losers, r.winners, Knock(r.winners, play, r.used).ranking, cards);
      }
    }
  }

  /** Every card gets a place, and a field of `n >= 2` cards takes
      RoundCount(n) rounds; a single card still plays one (empty) round. */
  lemma {:induction false} KnockSize(cards: seq<Card>, play: RoundRule, used: nat)
    requires Halves(play)
    ensures var t := Knock(cards, play, used);
            && |t.ranking| == |cards|
            && |t.rounds| == (if |cards| == 1 then 1 else RoundCount(|cards|))
    decreases |cards|
  {
    if cards != [] {
      var r := play(cards, used);
      if |r.winners| != 1 {
        KnockSize(r.winners, play, r.used);
      }
    }
  }

  /** Round `k > 0` of the knockout is round `k - 1` of the knockout of the
      first round's winners. */
  lemma RoundsLater<T>(rounds: seq<seq<T>>, first: seq<seq<T>>, later: seq<seq<T>>, k: nat)
    requires rounds == first + later && |first| == 1 && 0 < k < |rounds|
    ensures rounds[k] == later[k - 1]
  {
  }

  /** Round `k` of the knockout is played on FieldSize(n, k) cards and knocks
      out half of them, rounded down. */
  lemma {:induction false} RoundSizes(cards: seq<Card>, play: RoundRule, used: nat, k: nat)
    requires Halves(play) && k < |Knock(cards, play, used).rounds|
    ensures FieldSize(|cards|, k) <= |cards|
    ensures |Knock(cards, play, used).rounds[k]| == FieldSize(|cards|, k) / 2
    decreases |cards|
  {
    var r := play(cards, used);
    FieldSizeShrinks(|cards|, k);
    if k > 0 {
      RoundSizes(r.winners, play, r.used, k - 1);
      RoundsLater(Knock(cards, play, used).rounds, [r.losers], Knock(r.winners, play, r.used).rounds, k);
    }
  }

  /** Positions in the finishing order of the winners are shifted by the
      losers in front of them. */
  lemma LayoutShift<T>(ranking: seq<T>, losers: seq<T>, later: seq<T>, n: nat, h: nat, f: nat, i: nat)
    requires ranking == losers + later && |later| == h && |losers| == n - h && h <= n
    requires f <= h && i < f / 2
    ensures n - f + i < |ranking| && ranking[n - f + i] == later[h - f + i]
  {
  }

  /** The losers of round `k` sit in the finishing order right after the
      n - FieldSize(n, k) cards knocked out before them, in the order they
      were knocked out. */
  lemma {:induction false} RoundPlaces(cards: seq<Card>, play: RoundRule, used: nat, k: nat, i: nat)
    requires Halves(play) && k < |Knock(cards, play, used).rounds|
    requires i < FieldSize(|cards|, k) / 2
    ensures var t := Knock(cards, play, used);
            var f := FieldSize(|cards|, k);
            && f <= |cards| && |cards| - f + i < |t.ranking| && i < |t.rounds[k]|
            && t.ranking[|cards| - f + i] == t.rounds[k][i]
    decreases |cards|
  {
    var t := Knock(cards, play, used);
    var r := play(cards, used);
    KnockSize(cards, play, used);
    RoundSizes(cards, play, used, k);
    if k > 0 {
      var rest := Knock(r.winners, play, r.used);
      RoundPlaces(r.winners, play, r.used, k - 1, i);
      KnockSize(r.winners, play, r.used);
      RoundsLater(t.rounds, [r.losers], rest.rounds, k);
      LayoutShift(t.ranking, r.losers, rest.ranking, |cards|, |r.winners|, FieldSize(|r.winners|, k - 1), i);
    }
  }

  /** The last two places and the last round of the knockout are those of the
      knockout of the winners of its first round. */
  lemma FinalShift<T>(ranking: seq<T>, losers: seq<T>, later: seq<T>,
                      rounds: seq<seq<T>>, first: seq<seq<T>>, laterRounds: seq<seq<T>>)
    requires ranking == losers + later && |later| >= 2
    requires rounds == first + laterRounds && |laterRounds| >= 1
    ensures ranking[|ranking| - 1] == later[|later| - 1] && ranking[|ranking| - 2] == later[|later| - 2]
    ensures rounds[|rounds| - 1] == laterRounds[|laterRounds| - 1]
  {
  }

  /** The final: on a field of at least two cards the last round is a single
      match between the champion, placed last, and the runner-up, placed just
      before; it knocks out the runner-up alone, and with a fair final the
      champion wins at least as many attributes against the runner-up as the
      other way round. */
  lemma {:induction false} KnockFinal(cards: seq<Card>, play: RoundRule, ordering: seq<string>, used: nat)
    requires Halves(play) && FairFinal(play, ordering) && |cards| >= 2
    ensures var t := Knock(cards, play, used);
            var n := |cards|;
            && |t.ranking| == n && |t.rounds| >= 1
            && t.rounds[|t.rounds| - 1] == [t.ranking[n - 2]]
            && AttributesWon(t.ranking[n - 1].values, t.ranking[n - 2].values, ordering)
               >= AttributesWon(t.ranking[n - 2].values, t.ranking[n - 1].values, ordering)
    decreases |cards|
  {
    var r := play(cards, used);
    var t := Knock(cards, play, used);
    KnockSize(cards, play, used);
    if |r.winners| != 1 {
      var rest := Knock(r.winners, play, r.used);
      KnockFinal(r.winners, play, ordering, r.used);
      FinalShift(t.ranking, r.losers, rest.ranking, t.rounds, [r.losers], rest.rounds);
    }
  }

  /** What the knockout promises for `one_round`: the finishing order is a
      permutation of the cards, a field of `n >= 2` cards takes RoundCount(n)
      calls of `fight_roster` and a single card one, and on at least two cards
      the champion comes last after the runner-up, the only card knocked out
      in the final, and wins at least as many attributes against it as the
      other way round. */
  lemma TournamentShape(cards: seq<Card>, ordering: seq<string>, draws: nat -> nat, used: nat)
    ensures var t := Tournament(cards, ordering, draws, used);
            && multiset(t.ranking) == multiset(cards)
            && |t.ranking| == |cards|
            && |t.rounds| == (if |cards| == 1 then 1 else RoundCount(|cards|))
            && (|cards| >= 2 ==>
                  && t.rounds[|t.rounds| - 1] == [t.ranking[|cards| - 2]]
                  && AttributesWon(t.ranking[|cards| - 1].values, t.ranking[|cards| - 2].values, ordering)
                     >= AttributesWon(t.ranking[|cards| - 2].values, t.ranking[|cards| - 1].values, ordering))
  {
    var play := RoundOf(ordering, draws);
    RoundOfHalves(ordering, draws);
    KnockKeepsCards(cards, play, used);
    KnockSize(cards, play, used);
    if |cards| >= 2 {
      RoundOfFairFinal(ordering, draws);
      KnockFinal(cards, play, ordering, used);
    }
  }

  /** Moving the next part of the finishing order into the result keeps the
      whole finishing order. */
  lemma Advance<T>(result: seq<T>, part: seq<T>, later: seq<T>, current: seq<T>, whole: seq<T>)
    requires result + current == whole && current == part + later
    ensures (result + part) + later == whole
  {
  }

  /** One pass of `one_round`'s loop keeps its record: if `result` followed by
      the finishing order of `before` is the whole finishing order, then after
      a round on `before` either its single winner ends the finishing order,
      or the finishing order of the winners, which are fewer than `before`,
      completes it. */
  lemma KnockStep(before: seq<Card>, play: RoundRule, used: nat, result: seq<Card>, goal: Standings)
    requires Halves(play) && before != []
    requires var t := Knock(before, play, used);
             result + t.ranking == goal.ranking && t.used == goal.used
    ensures var r := play(before, used);
            && (|r.winners| == 1 ==> (result + r.losers) + r.winners == goal.ranking && r.used == goal.used)
            && (|r.winners| != 1 ==>
                  && |r.winners| < |before|
                  && var t := Knock(r.winners, play, r.used);
                     (result + r.losers) + t.ranking == goal.ranking && t.used == goal.used)
  {
    var r := play(before, used);
    var t := Knock(before, play, used);
    if |r.winners| == 1 {
      Advance(result, r.losers, r.winners, t.ranking, goal.ranking);
    } else {
      Advance(result, r.losers, Knock(r.winners, play, r.used).ranking, t.ranking, goal.ranking);
    }
  }

  /** `one_round(cards, ordering)`: copies the caller's list, then calls
      `fight_roster` on it and on each round's winners in turn, appending the
      losers of each call to the result and, once a single winner is left,
      that winner. The caller's list is a value here and cannot change.
      `calls` records the losers of each call of `fight_roster` in turn, so
      the calls the loop makes are the rounds of `Tournament`. */
  method OneRound(cards: seq<Card>, ordering: seq<string>, rng: Source)
    returns (result: seq<Card>, ghost calls: seq<seq<Card>>)
    modifies rng
    ensures var t := Tournament(cards, ordering, rng.draws, old(rng.used));
            result == t.ranking && calls == t.rounds && rng.used == t.used
  {
    result, calls := [], [];
    var roster := new Roster(cards);
    ghost var play := RoundOf(ordering, rng.draws);
    RoundOfHalves(ordering, rng.draws);
    ghost var goal := Knock(cards, play, rng.used);
    while roster.cards != []
      invariant fresh(roster)
      invariant var t := Knock(roster.cards, play, rng.used);
                result + t.ranking == goal.ranking && t.used == goal.used
      invariant calls + Knock(roster.cards, play, rng.used).rounds == goal.rounds
      decreases |roster.cards|
    {
      ghost var before, used := roster.cards, rng.used;
      var winners, losers := FightRoster(roster, ordering, rng);
      KnockStep(before, play, used, result, goal);
      ghost var rest := Knock(before, play, used).rounds;
      result, calls := result + losers, calls + [losers];
      if |winners| == 1 {
        assert rest == [losers];
        result := result + winners;
        break;
      }
      assert rest == [losers] + Knock(winners, play, rng.used).rounds;
      roster := new Roster(winners);
    }
  }
}
