/** The bracket: a round pairs off a shuffled field, an odd card out advancing
    on a bye, and rounds repeat on the winners until one card is left. Each
    method is specified by a function of the random stream, and what the
    bracket promises is proved about those functions. */
module Bracket {
  import opened Cards
  import opened Matches
  import opened Randomness
  import opened Schedule

  /** `s` with positions `i` and `j` exchanged. */
  function Swap<T>(s: seq<T>, i: nat, j: nat): (r: seq<T>)
    requires i < |s| && j < |s|
    ensures |r| == |s|
  {
    s[i := s[j]][j := s[i]]
  }

  /** Exchanging two positions keeps the elements. */
  lemma SwapKeepsElements<T>(s: seq<T>, i: nat, j: nat)
    requires i < |s| && j < |s|
    ensures multiset(Swap(s, i, j)) == multiset(s)
  {
  }

  /** The list after the shuffle's swaps for positions `i` down to 1, the swap
      for position `i` using the draw at position `used` of the stream. */
  function Shuffled<T>(s: seq<T>, i: int, draws: nat -> nat, used: nat): (r: seq<T>)
    requires -1 <= i < |s|
    ensures |r| == |s|
    decreases i
  {
    if i < 1 then s
    else Shuffled(Swap(s, i, draws(used) % (i + 1)), i - 1, draws, used + 1)
  }

  /** Shuffling is a permutation: whatever the draws, the shuffled list holds
      the same cards as many times each. */
  lemma {:induction false} ShuffledKeepsElements<T>(s: seq<T>, i: int, draws: nat -> nat, used: nat)
    requires -1 <= i < |s|
    ensures multiset(Shuffled(s, i, draws, used)) == multiset(s)
    decreases i
  {
    if i >= 1 {
      var j := draws(used) % (i + 1);
      SwapKeepsElements(s, i, j);
      ShuffledKeepsElements(Swap(s, i, j), i - 1, draws, used + 1);
    }
  }

  /** How many draws the shuffle of `n` cards consumes: one per position from
      the last down to the second. */
  function ShuffleDraws(n: nat): (d: nat)
    ensures n >= 1 ==> d == n - 1
  {
    if n > 1 then n - 1 else 0
  }

  /** A mutable list of cards, as the bracket passes it around and empties it. */
  class Roster {
    var cards: seq<Card>

    constructor (cards: seq<Card>)
      ensures this.cards == cards
    {
      this.cards := cards;
    }

    /** Removes and returns the last card. */
    method Pop() returns (c: Card)
      requires cards != []
      modifies this
      ensures old(cards) == cards + [c]
    {
      c := cards[|cards| - 1];
      cards := cards[..|cards| - 1];
    }

    /** Shuffles the list in place: from the last position down to the second,
        swaps each position with one drawn at or below it. */
    method Shuffle(rng: Source)
      modifies this, rng
      ensures cards == Shuffled(old(cards), |old(cards)| - 1, rng.draws, old(rng.used))
      ensures rng.used == old(rng.used) + ShuffleDraws(|old(cards)|)
    {
      var i := |cards| - 1;
      while i >= 1
        invariant -1 <= i < |cards| && |cards| == |old(cards)|
        invariant Shuffled(cards, i, rng.draws, rng.used) == Shuffled(old(cards), |old(cards)| - 1, rng.draws, old(rng.used))
        invariant rng.used + ShuffleDraws(i + 1) == old(rng.used) + ShuffleDraws(|cards|)
      {
        var j := rng.Below(i + 1);
        cards := Swap(cards, i, j);
        i := i - 1;
      }
    }
  }

  /** What the matches of a round produced: the winners and the losers in the
      order they were appended, and the position reached in the random stream. */
  datatype Played = Played(winners: seq<Card>, losers: seq<Card>, used: nat)

  /** The matches of `fight_roster`'s loop on the first `k` cards of `field`:
      the top two of them are popped and play, the first popped as the first
      argument of `compare`, then the `k - 2` cards below them are paired the
      same way. A card left alone at the bottom plays no match. */
  function PlayPairs(field: seq<Card>, k: nat, ordering: seq<string>, draws: nat -> nat, used: nat): (r: Played)
    requires k <= |field|
    ensures |r.winners| == |r.losers| && 2 * |r.winners| <= k < 2 * |r.winners| + 2
    decreases k
  {
    if k < 2 then Played([], [], used)
    else
      var m := Play(field[k - 1], field[k - 2], ordering, draws, used);
      var rest := PlayPairs(field, k - 2, ordering, draws, m.2);
      Played([m.0] + rest.winners, [m.1] + rest.losers, rest.used)
  }

  /** A round on the shuffled field: the last card of an odd field is the first
      winner, on a bye; the cards below it play in pairs from the top. */
  function Fight(shuffled: seq<Card>, ordering: seq<string>, draws: nat -> nat, used: nat): (r: Played)
    ensures |r.winners| == Half(|shuffled|) && |r.losers| == |shuffled| / 2
  {
    var bye := |shuffled| % 2;
    var p := PlayPairs(shuffled, |shuffled| - bye, ordering, draws, used);
    Played(shuffled[|shuffled| - bye..] + p.winners, p.losers, p.used)
  }

  /** A whole call of `fight_roster` from position `used` of the random stream:
      the shuffle, then the round on the shuffled field. */
  function Round(cards: seq<Card>, ordering: seq<string>, draws: nat -> nat, used: nat): Played {
    Fight(Shuffled(cards, |cards| - 1, draws, used), ordering, draws, used + ShuffleDraws(|cards|))
  }

  /** The first `k` cards are the first `k - 2` and then the two above them. */
  lemma TakeTopTwo<T>(s: seq<T>, k: nat)
    requires 2 <= k <= |s|
    ensures s[..k] == s[..k - 2] + [s[k - 2], s[k - 1]]
  {
  }

  /** A list is its first `k` elements followed by the rest. */
  lemma SplitAt<T>(s: seq<T>, k: nat)
    requires k <= |s|
    ensures s == s[..k] + s[k..]
  {
  }

  /** Recording a match between `a` and `b` in front of the records of the
      matches below them accounts for both cards. */
  lemma RecordKeepsCards<T>(rw: seq<T>, rl: seq<T>, pw: seq<T>, pl: seq<T>, w: T, l: T, a: T, b: T,
                            whole: seq<T>, rest: seq<T>)
    requires rw == [w] + pw && rl == [l] + pl
    requires (w == a && l == b) || (w == b && l == a)
    requires multiset(pw) + multiset(pl) == multiset(rest)
    requires whole == rest + [b, a]
    ensures multiset(rw) + multiset(rl) == multiset(whole)
  {
    assert multiset(rw) == multiset{w} + multiset(pw);
    assert multiset(rl) == multiset{l} + multiset(pl);
    assert multiset(whole) == multiset(rest) + multiset{b, a};
  }

  /** One match more keeps the account of the pairing: if the matches below
      the top two cards account for the cards below them, the matches of the
      first `k` cards account for those `k` cards. */
  lemma PairKeepsCards(field: seq<Card>, k: nat, ordering: seq<string>, draws: nat -> nat, used: nat)
    requires 2 <= k <= |field|
    requires var m := Play(field[k - 1], field[k - 2], ordering, draws, used);
             var p := PlayPairs(field, k - 2, ordering, draws, m.2);
             multiset(p.winners) + multiset(p.losers) == multiset(field[..k - 2])
    ensures var r := PlayPairs(field, k, ordering, draws, used);
            multiset(r.winners) + multiset(r.losers) == multiset(field[..k])
  {
    var m := Play(field[k - 1], field[k - 2], ordering, draws, used);
    var p := PlayPairs(field, k - 2, ordering, draws, m.2);
    var r := PlayPairs(field, k, ordering, draws, used);
    PlayResolves(field[k - 1], field[k - 2], ordering, draws, used);
    TakeTopTwo(field, k);
    RecordKeepsCards(r.winners, r.losers, p.winners, p.losers, m.0, m.1, field[k - 1], field[k - 2],
                     field[..k], field[..k - 2]);
  }

  /** The pairing loses no card and invents none: on an even number of cards
      the winners and the losers together are exactly those cards. */
  lemma {:induction false} PlayPairsKeepsCards(field: seq<Card>, k: nat, ordering: seq<string>, draws: nat -> nat, used: nat)
    requires k <= |field| && k % 2 == 0
    ensures var r := PlayPairs(field, k, ordering, draws, used);
            multiset(r.winners) + multiset(r.losers) == multiset(field[..k])
    decreases k
  {
    if k >= 2 {
      var m := Play(field[k - 1], field[k - 2], ordering, draws, used);
      PlayPairsKeepsCards(field, k - 2, ordering, draws, m.2);
      PairKeepsCards(field, k, ordering, draws, used);
    }
  }

  /** Match `j` of the pairing played the cards `2 * j` places below the top of
      the first `k`, and its result obeys the match rule. */
  lemma {:induction false} PlayPairsResolves(field: seq<Card>, k: nat, ordering: seq<string>, draws: nat -> nat, used: nat, j: nat)
    requires k <= |field| && 2 * j + 2 <= k
    ensures var r := PlayPairs(field, k, ordering, draws, used);
            Resolves(field[k - 1 - 2 * j], field[k - 2 - 2 * j], r.winners[j], r.losers[j], ordering)
    decreases k
  {
    var m := Play(field[k - 1], field[k - 2], ordering, draws, used);
    if j == 0 {
      PlayResolves(field[k - 1], field[k - 2], ordering, draws, used);
    } else {
      PlayPairsResolves(field, k - 2, ordering, draws, m.2, j - 1);
    }
  }

  /** A round keeps every card: winners and losers together are the field. */
  lemma FightKeepsCards(shuffled: seq<Card>, ordering: seq<string>, draws: nat -> nat, used: nat)
    ensures var r := Fight(shuffled, ordering, draws, used);
            multiset(r.winners + r.losers) == multiset(shuffled)
  {
    var k := |shuffled| - |shuffled| % 2;
    var p := PlayPairs(shuffled, k, ordering, draws, used);
    PlayPairsKeepsCards(shuffled, k, ordering, draws, used);
    SplitAt(shuffled, k);
    ByeKeepsCards(shuffled[k..] + p.winners, p.losers, shuffled[k..], p.winners, shuffled[..k], shuffled);
  }

  /** Putting the bye card in front of the match winners accounts for it. */
  lemma ByeKeepsCards<T>(w: seq<T>, l: seq<T>, bye: seq<T>, pw: seq<T>, field: seq<T>, whole: seq<T>)
    requires w == bye + pw
    requires multiset(pw) + multiset(l) == multiset(field)
    requires whole == field + bye
    ensures multiset(w + l) == multiset(whole)
  {
    calc {
      multiset(w + l);
      multiset(bye) + (multiset(pw) + multiset(l));
      multiset(whole);
    }
  }

  /** In a round on an odd field the last card of the shuffled field advances
      on a bye, ahead of every match winner. */
  lemma FightByeAdvances(shuffled: seq<Card>, ordering: seq<string>, draws: nat -> nat, used: nat)
    requires |shuffled| % 2 == 1
    ensures Fight(shuffled, ordering, draws, used).winners[0] == shuffled[|shuffled| - 1]
  {
  }

  /** Match `j` of a round played the two cards `2 * j` places below the top
      of the field without its bye card, and its result, recorded after the
      bye at winners[bye + j] and at losers[j], obeys the match rule. */
  lemma FightResolves(shuffled: seq<Card>, ordering: seq<string>, draws: nat -> nat, used: nat, j: nat)
    requires 2 * j + 2 <= |shuffled|
    ensures var r := Fight(shuffled, ordering, draws, used);
            var top := |shuffled| - |shuffled| % 2 - 1 - 2 * j;
            && 1 <= top < |shuffled|
            && Resolves(shuffled[top], shuffled[top - 1], r.winners[|shuffled| % 2 + j], r.losers[j], ordering)
  {
    PlayPairsResolves(shuffled, |shuffled| - |shuffled| % 2, ordering, draws, used, j);
  }

  /** Popping two cards off the first `k` of `field` leaves the first `k - 2`,
      the first card popped being the top one. */
  lemma PopTwo<T>(field: seq<T>, k: nat, before: seq<T>, middle: seq<T>, after: seq<T>, a: T, b: T)
    requires 2 <= k <= |field| && before == field[..k]
    requires before == middle + [a] && middle == after + [b]
    ensures after == field[..k - 2] && a == field[k - 1] && b == field[k - 2]
  {
    assert |after| == k - 2;
    assert before[k - 1] == a && before[k - 2] == b;
    assert after == before[..k - 2];
  }

  /** `fight_roster(cards, ordering)`: shuffles the caller's list, lets the
      last card of an odd field through on a bye, then plays the rest of the
      list off in pairs. The caller's list ends empty. */
  method FightRoster(roster: Roster, ordering: seq<string>, rng: Source) returns (winners: seq<Card>, losers: seq<Card>)
    modifies roster, rng
    ensures roster.cards == []
    ensures var r := Round(old(roster.cards), ordering, rng.draws, old(rng.used));
            winners == r.winners && losers == r.losers && rng.used == r.used
  {
    ghost var cards, used0 := roster.cards, rng.used;
    winners := [];
    roster.Shuffle(rng);
    ghost var shuffled, used := roster.cards, rng.used;
    if |roster.cards| % 2 == 1 {
      var c := roster.Pop();
      winners := winners + [c];
    }
    ByeOff(shuffled, roster.cards, winners);
    ghost var field, winners0 := roster.cards, winners;
    winners, losers := PlayOff(roster, winners, ordering, rng);
    PlayPairsPrefix(field, shuffled, |field|, ordering, rng.draws, used);
    RoundIs(cards, ordering, rng.draws, used0, shuffled, used, winners, losers, rng.used);
  }

  /** The shuffle followed by the bye card and the pairing of the cards below
      it is the whole call `Round` describes. */
  lemma RoundIs(cards: seq<Card>, ordering: seq<string>, draws: nat -> nat, used0: nat,
                shuffled: seq<Card>, used: nat, winners: seq<Card>, losers: seq<Card>, end: nat)
    requires shuffled == Shuffled(cards, |cards| - 1, draws, used0) && used == used0 + ShuffleDraws(|cards|)
    requires var k := |shuffled| - |shuffled| % 2;
             var p := PlayPairs(shuffled, k, ordering, draws, used);
             winners == shuffled[k..] + p.winners && losers == p.losers && end == p.used
    ensures var r := Round(cards, ordering, draws, used0);
            winners == r.winners && losers == r.losers && end == r.used
  {
  }

  /** The `while cards` loop of `fight_roster` on a list of even length: pops
      the cards two at a time, plays each pair with `Compare`, and appends the
      winner to `winners` and the loser to the losers. */
  method PlayOff(roster: Roster, winners0: seq<Card>, ordering: seq<string>, rng: Source)
    returns (winners: seq<Card>, losers: seq<Card>)
    requires |roster.cards| % 2 == 0
    modifies roster, rng
    ensures roster.cards == []
    ensures var p := PlayPairs(old(roster.cards), |old(roster.cards)|, ordering, rng.draws, old(rng.used));
            winners == winners0 + p.winners && losers == p.losers && rng.used == p.used
  {
    winners, losers := winners0, [];
    ghost var field := roster.cards;
    ghost var pairs := |field| / 2;
    ghost var goal := PlayPairs(field, |field|, ordering, rng.draws, rng.used);
    while roster.cards != []
      invariant |roster.cards| == 2 * pairs && |roster.cards| <= |field|
      invariant roster.cards == field[..|roster.cards|]
      invariant var p := PlayPairs(field, |roster.cards|, ordering, rng.draws, rng.used);
                winners + p.winners == winners0 + goal.winners && losers + p.losers == goal.losers
                && p.used == goal.used
      decreases |roster.cards|
    {
      ghost var before, used := roster.cards, rng.used;
      var a := roster.Pop();
      ghost var middle := roster.cards;
      var b := roster.Pop();
      PopTwo(field, |before|, before, middle, roster.cards, a, b);
      var winner, loser := Compare(a, b, ordering, rng);
      PairingAdvances(field, |before|, winners, losers, winner, loser, ordering, rng.draws, used, rng.used,
                      winners0 + goal.winners, goal.losers, goal.used);
      winners := winners + [winner];
      losers := losers + [loser];
      pairs := pairs - 1;
    }
  }

  /** The pairing of the first `k` cards looks at no card above them. */
  lemma {:induction false} PlayPairsPrefix(field: seq<Card>, other: seq<Card>, k: nat, ordering: seq<string>,
                                           draws: nat -> nat, used: nat)
    requires k <= |field| && k <= |other| && field == other[..k]
    ensures PlayPairs(field, k, ordering, draws, used) == PlayPairs(other, k, ordering, draws, used)
    decreases k
  {
    if k >= 2 {
      var m := Play(field[k - 1], field[k - 2], ordering, draws, used);
      PlayPairsPrefix(field[..k - 2], other, k - 2, ordering, draws, m.2);
      PlayPairsPrefix(field[..k - 2], field, k - 2, ordering, draws, m.2);
    }
  }

  /** Taking the bye card, if any, off the top of the shuffled field leaves the
      cards the matches are played on. */
  lemma ByeOff(shuffled: seq<Card>, rest: seq<Card>, winners: seq<Card>)
    requires (|shuffled| % 2 == 1 && shuffled == rest + winners && |winners| == 1)
          || (|shuffled| % 2 == 0 && rest == shuffled && winners == [])
    ensures |rest| == |shuffled| - |shuffled| % 2 == 2 * (|shuffled| / 2) && rest == shuffled[..|rest|]
    ensures winners == shuffled[|rest|..]
  {
  }

  /** One pass of `fight_roster`'s loop keeps the record of the round: the
      two cards popped play the match the pairing of the first `k` cards
      starts with, and the cards below them are paired from where the match
      left the random stream. */
  lemma PairingAdvances(field: seq<Card>, k: nat, winners: seq<Card>, losers: seq<Card>,
                        winner: Card, loser: Card, ordering: seq<string>, draws: nat -> nat, used: nat, used': nat,
                        allWinners: seq<Card>, allLosers: seq<Card>, end: nat)
    requires 2 <= k <= |field|
    requires (winner, loser, used') == Play(field[k - 1], field[k - 2], ordering, draws, used)
    requires var p := PlayPairs(field, k, ordering, draws, used);
             winners + p.winners == allWinners && losers + p.losers == allLosers && p.used == end
    ensures var p := PlayPairs(field, k - 2, ordering, draws, used');
            (winners + [winner]) + p.winners == allWinners && (losers + [loser]) + p.losers == allLosers
            && p.used == end
  {
    var p := PlayPairs(field, k - 2, ordering, draws, used');
    assert (winners + [winner]) + p.winners == winners + ([winner] + p.winners);
    assert (losers + [loser]) + p.losers == losers + ([loser] + p.losers);
  }
}
