/** Round arithmetic: each round of a bracket halves the field, rounding up,
    because an odd card out advances on a bye. */
module Schedule {

  /** The field after one round: half of `m`, rounded up. */
  function Half(m: nat): (h: nat)
    ensures 2 * h == m || 2 * h == m + 1
  {
    m / 2 + m % 2
  }

  /** The number of rounds a field of `p` cards needs to leave one card:
      none for at most one card, otherwise one more than for the halved field. */
  function RoundCount(p: int): nat
    decreases p
  {
    if p <= 1 then 0 else 1 + RoundCount(Half(p))
  }

  /** The field left after `k` rounds starting from `n` cards. */
  function FieldSize(n: nat, k: nat): nat {
    if k == 0 then n else FieldSize(Half(n), k - 1)
  }

  /** `rounds_needed(cards)`: counts the halvings (rounding up) that bring the
      field down to a single card. */
  method RoundsNeeded(cards: int) returns (out: nat)
    ensures out == RoundCount(cards)
    ensures cards >= 1 ==> FieldSize(cards, out) == 1
  {
    out := 0;
    var c := cards;
    while c > 1
      invariant out + RoundCount(c) == RoundCount(cards)
      invariant cards >= 1 ==> c >= 1 && FieldSize(cards, out) == c
    {
      FieldSizeStep(cards, out);
      out := out + 1;
      c := c / 2 + c % 2;
    }
  }

  /** The round counts of 1, 2, 3, 4, 8 and 9 cards. */
  lemma RoundCountExamples()
    ensures RoundCount(1) == 0 && RoundCount(2) == 1 && RoundCount(3) == 2
    ensures RoundCount(4) == 2 && RoundCount(8) == 3 && RoundCount(9) == 4
  {
  }

  /** 2 to the power `k`. */
  function Pow2(k: nat): (r: nat)
    ensures r >= 1
  {
    if k == 0 then 1 else 2 * Pow2(k - 1)
  }

  /** The round count is the base-2 logarithm rounded up: `p` cards fit in a
      bracket of 2^RoundCount(p) slots and not in one of half that size. */
  lemma {:induction false} RoundCountIsCeilLog2(p: int)
    requires p >= 1
    ensures p <= Pow2(RoundCount(p))
    ensures p >= 2 ==> Pow2(RoundCount(p) - 1) < p
  {
    if p >= 2 {
      var h := Half(p);
      RoundCountIsCeilLog2(h);
      assert RoundCount(p) == 1 + RoundCount(h);
      assert Pow2(RoundCount(p)) == 2 * Pow2(RoundCount(h));
      if h >= 2 {
        assert Pow2(RoundCount(p) - 1) == Pow2(RoundCount(h));
        assert Pow2(RoundCount(h)) == 2 * Pow2(RoundCount(h) - 1);
      }
    }
  }

  /** One more round halves the field once more. */
  lemma {:induction false} FieldSizeStep(n: nat, k: nat)
    ensures FieldSize(n, k + 1) == Half(FieldSize(n, k))
    decreases k
  {
    if k > 0 {
      FieldSizeStep(Half(n), k - 1);
    }
  }

  /** A field never grows, and a non-empty field never empties. */
  lemma {:induction false} FieldSizeShrinks(n: nat, k: nat)
    ensures FieldSize(n, k) <= n
    ensures n >= 1 ==> FieldSize(n, k) >= 1
    decreases k
  {
    if k > 0 {
      FieldSizeShrinks(Half(n), k - 1);
    }
  }

  /** Later rounds have smaller fields: the field after `k2` rounds is at most
      half (rounded up) of the field after `k1 < k2` rounds. */
  lemma FieldSizeDecreasing(n: nat, k1: nat, k2: nat)
    requires k1 < k2
    ensures FieldSize(n, k2) <= Half(FieldSize(n, k1))
  {
    FieldSizeStep(n, k1);
    FieldSizeAfter(n, k1 + 1, k2 - (k1 + 1));
    FieldSizeShrinks(FieldSize(n, k1 + 1), k2 - (k1 + 1));
  }

  /** Rounds compose: `j` more rounds after `k` rounds are `k + j` rounds. */
  lemma {:induction false} FieldSizeAfter(n: nat, k: nat, j: nat)
    ensures FieldSize(n, k + j) == FieldSize(FieldSize(n, k), j)
    decreases k
  {
    if k > 0 {
      FieldSizeAfter(Half(n), k - 1, j);
    }
  }

  /** A field of at least one card is down to a single card exactly from
      round RoundCount(n) on. */
  lemma {:induction false} FieldSizeOne(n: nat, k: nat)
    requires n >= 1
    ensures FieldSize(n, k) == 1 <==> k >= RoundCount(n)
    decreases k
  {
    if n == 1 {
      FieldOfOne(k);
    } else if k > 0 {
      FieldSizeOne(Half(n), k - 1);
    }
  }

  /** A single card stays a single card. */
  lemma {:induction false} FieldOfOne(k: nat)
    ensures FieldSize(1, k) == 1
  {
    if k > 0 {
      FieldOfOne(k - 1);
    }
  }
}
