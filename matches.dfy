/** The match rule: two cards compare attribute by attribute, each attribute
    counts +1, 0 or -1 for the first card, and the card with the positive net
    score wins; an exact tie is settled by a coin. */
module Matches {
  import opened Cards
  import opened Randomness

  /** The sign of `x`: -1, 0 or 1. */
  function Sign(x: int): int {
    if x < 0 then -1 else if x > 0 then 1 else 0
  }

  /** The sign is -1, 0 or 1, positive exactly for a positive number and
      negative exactly for a negative one, and negating the number negates it. */
  lemma SignMeaning(x: int)
    ensures -1 <= Sign(x) <= 1
    ensures Sign(x) > 0 <==> x > 0
    ensures Sign(x) < 0 <==> x < 0
    ensures Sign(-x) == -Sign(x)
  {
  }

  /** What one attribute contributes to the first card's score. An ordering
      entry "+" means higher is better; any other entry means lower is better,
      which swaps the two values before the sign is taken. */
  function Point(av: int, bv: int, op: string): int {
    var (x, y) := if op == "+" then (av, bv) else (bv, av);
    Sign(x - y)
  }

  /** An attribute is won by the card whose value is better in the attribute's
      direction, and swapping the two cards swaps the point's sign. */
  lemma PointMeaning(av: int, bv: int, op: string)
    ensures Point(av, bv, op) > 0 <==> (if op == "+" then av > bv else bv > av)
    ensures Point(av, bv, op) < 0 <==> (if op == "+" then av < bv else bv < av)
    ensures Point(bv, av, op) == -Point(av, bv, op)
  {
  }

  /** The number of attributes compared: the pairing of values with ordering
      entries stops at the shortest of the three lists. */
  function ZipLen(a: seq<int>, b: seq<int>, ordering: seq<string>): (n: nat)
    ensures n <= |a| && n <= |b| && n <= |ordering|
    ensures n == |a| || n == |b| || n == |ordering|
  {
    if |a| <= |b| && |a| <= |ordering| then |a|
    else if |b| <= |ordering| then |b|
    else |ordering|
  }

  /** The score of the first `k` compared attributes. */
  function ScoreUpTo(a: seq<int>, b: seq<int>, ordering: seq<string>, k: nat): int
    requires k <= ZipLen(a, b, ordering)
  {
    if k == 0 then 0
    else ScoreUpTo(a, b, ordering, k - 1) + Point(a[k - 1], b[k - 1], ordering[k - 1])
  }

  /** The net score of values `a` against values `b`. */
  function Score(a: seq<int>, b: seq<int>, ordering: seq<string>): int {
    ScoreUpTo(a, b, ordering, ZipLen(a, b, ordering))
  }

  /** How many of the first `k` compared attributes `a` wins outright. */
  function WinsUpTo(a: seq<int>, b: seq<int>, ordering: seq<string>, k: nat): nat
    requires k <= ZipLen(a, b, ordering)
  {
    if k == 0 then 0
    else WinsUpTo(a, b, ordering, k - 1) + (if Point(a[k - 1], b[k - 1], ordering[k - 1]) > 0 then 1 else 0)
  }

  /** How many attributes `a` wins outright against `b`. */
  function AttributesWon(a: seq<int>, b: seq<int>, ordering: seq<string>): nat {
    WinsUpTo(a, b, ordering, ZipLen(a, b, ordering))
  }

  /** Every attribute is worth exactly one point, whatever the size of the
      difference: the running score is the number of attributes won minus the
      number of attributes lost. */
  lemma {:induction false} ScoreUpToIsNetWins(a: seq<int>, b: seq<int>, ordering: seq<string>, k: nat)
    requires k <= ZipLen(a, b, ordering)
    ensures ZipLen(b, a, ordering) == ZipLen(a, b, ordering)
    ensures ScoreUpTo(a, b, ordering, k) == WinsUpTo(a, b, ordering, k) - WinsUpTo(b, a, ordering, k)
  {
    if k > 0 {
      ScoreUpToIsNetWins(a, b, ordering, k - 1);
      PointMeaning(a[k - 1], b[k - 1], ordering[k - 1]);
    }
  }

  /** The net score is attributes won minus attributes lost, and swapping the
      two cards negates it. */
  lemma ScoreIsNetWins(a: seq<int>, b: seq<int>, ordering: seq<string>)
    ensures Score(a, b, ordering) == AttributesWon(a, b, ordering) - AttributesWon(b, a, ordering)
    ensures Score(b, a, ordering) == -Score(a, b, ordering)
  {
    var n := ZipLen(a, b, ordering);
    ScoreUpToIsNetWins(a, b, ordering, n);
    ScoreUpToIsNetWins(b, a, ordering, n);
  }

  /** The result of `compare(a, b)` as (winner, loser), given the coin that an
      exact tie would add to `a`'s points (true for 1, false for 0). */
  function Outcome(a: Card, b: Card, ordering: seq<string>, coin: bool): (r: (Card, Card))
    ensures r == (a, b) || r == (b, a)
    ensures Score(a.values, b.values, ordering) > 0 ==> r == (a, b)
    ensures Score(a.values, b.values, ordering) < 0 ==> r == (b, a)
    ensures Score(a.values, b.values, ordering) == 0 ==> r == if coin then (a, b) else (b, a)
  {
    var points := Score(a.values, b.values, ordering);
    var points' := if points == 0 then points + (if coin then 1 else 0) else points;
    if points' > 0 then (a, b) else (b, a)
  }

  /** (w, l) is a possible result of the match between `a` and `b`: the two
      cards are `a` and `b`, and the winner does not have a negative score
      against the loser in `compare(a, b)`'s count. */
  predicate Resolves(a: Card, b: Card, w: Card, l: Card, ordering: seq<string>) {
    var score := Score(a.values, b.values, ordering);
    (w == a && l == b && score >= 0) || (w == b && l == a && score <= 0)
  }

  /** The possible results of a match are exactly those of `compare` for one of
      the two coins. */
  lemma ResolvesByCoin(a: Card, b: Card, w: Card, l: Card, ordering: seq<string>)
    ensures Resolves(a, b, w, l, ordering) <==>
              Outcome(a, b, ordering, true) == (w, l) || Outcome(a, b, ordering, false) == (w, l)
  {
  }

  /** Without a tie the order of the two arguments does not matter: both calls
      name the same winner and the same loser, whatever their coins. */
  lemma CompareAntisymmetric(a: Card, b: Card, ordering: seq<string>, coin1: bool, coin2: bool)
    requires Score(a.values, b.values, ordering) != 0
    ensures Outcome(a, b, ordering, coin1) == Outcome(b, a, ordering, coin2)
  {
    ScoreIsNetWins(a.values, b.values, ordering);
  }

  /** With a tie the coin alone decides: 1 makes the first card win, 0 the second. */
  lemma TieFollowsCoin(a: Card, b: Card, ordering: seq<string>)
    requires Score(a.values, b.values, ordering) == 0
    ensures Outcome(a, b, ordering, true).0 == a && Outcome(a, b, ordering, false).0 == b
  {
  }

  /** The winner of a match wins at least as many attributes as it loses, and
      strictly more unless the match was a tie; the two cards played are the
      winner and the loser. */
  lemma WinnerWinsMoreAttributes(a: Card, b: Card, w: Card, l: Card, ordering: seq<string>)
    requires Resolves(a, b, w, l, ordering)
    ensures (w == a && l == b) || (w == b && l == a)
    ensures AttributesWon(w.values, l.values, ordering) >= AttributesWon(l.values, w.values, ordering)
    ensures Score(a.values, b.values, ordering) != 0 ==>
              AttributesWon(w.values, l.values, ordering) > AttributesWon(l.values, w.values, ordering)
  {
    ScoreIsNetWins(a.values, b.values, ordering);
    ScoreIsNetWins(w.values, l.values, ordering);
  }

  /** A match as `compare` plays it from position `used` of the random stream:
      the winner, the loser, and the stream position after the match, which
      has moved on by one draw exactly when the scores tie. */
  function Play(a: Card, b: Card, ordering: seq<string>, draws: nat -> nat, used: nat): (Card, Card, nat) {
    var tie := Score(a.values, b.values, ordering) == 0;
    var pair := Outcome(a, b, ordering, tie && draws(used) % 2 == 1);
    (pair.0, pair.1, if tie then used + 1 else used)
  }

  /** Whatever the stream holds, a played match obeys the match rule and takes
      at most one draw, and it takes one only on a tie. */
  lemma PlayResolves(a: Card, b: Card, ordering: seq<string>, draws: nat -> nat, used: nat)
    ensures var r := Play(a, b, ordering, draws, used);
            && Resolves(a, b, r.0, r.1, ordering)
            && (r.2 == used + 1 <==> Score(a.values, b.values, ordering) == 0)
            && (r.2 == used || r.2 == used + 1)
  {
    var tie := Score(a.values, b.values, ordering) == 0;
    ResolvesByCoin(a, b, Outcome(a, b, ordering, tie && draws(used) % 2 == 1).0,
                   Outcome(a, b, ordering, tie && draws(used) % 2 == 1).1, ordering);
  }

  /** `compare(a, b, ordering)`: sums the attribute points of `a` against `b`;
      only on an exact tie it draws a coin of 0 or 1 from the random source and
      adds it; `a` wins on a positive total, `b` otherwise. */
  method Compare(a: Card, b: Card, ordering: seq<string>, rng: Source) returns (winner: Card, loser: Card)
    modifies rng
    ensures (winner, loser, rng.used) == Play(a, b, ordering, rng.draws, old(rng.used))
    ensures Resolves(a, b, winner, loser, ordering)
  {
    var apoints := 0;
    var n := ZipLen(a.values, b.values, ordering);
    for i := 0 to n
      invariant apoints == ScoreUpTo(a.values, b.values, ordering, i)
    {
      var av, bv := a.values[i], b.values[i];
      if ordering[i] != "+" {
        av, bv := bv, av;
      }
      apoints := apoints + Sign(av - bv);
    }
    if apoints == 0 {
      var coin := rng.Choice([0, 1]);
      apoints := apoints + coin;
    }
    if apoints > 0 {
      winner, loser := a, b;
    } else {
      winner, loser := b, a;
    }
  }
}
